/**
 * The ingestion and publication layer of `interface/db_acess.py`, over the
 * SQLite store of `database/db_sqlite3.py`:
 * - the watch and download links are merged into episode candidates;
 * - animes and episodes are inserted only when their natural key is absent;
 * - publication records go into `msgs_an` and `msgs_ep`;
 * - the AnimesTele platform and channel are set up.
 * Every `get_by_id` here is the store's corrected one (the written one raises
 * TypeError on every stored row, see `SqliteStore`).
 */
module DbAccess {
  import opened Wrappers
  import opened PyValues
  import opened Tables
  import opened DbStructs
  import opened SqliteStore
  import opened DataCollect

  /** Python `a == b` between the values the records carry: None equals only None, and `True == 1`. */
  predicate PyEq(a: PyValue, b: PyValue) {
    Stored(a) == Stored(b)
  }

  function Min(a: int, b: int): int {
    if a <= b then a else b
  }

  // ---------------------------------------------------------------- merging the links

  /** The episode dict of lines 41-48, before `anime_id` is added to it. */
  datatype Merged = Merged(malId: PyValue, episodeNumber: PyValue, watchLink: PyValue,
                           downloadLinkHd: PyValue, downloadLinkSd: PyValue, temp: PyValue)

  /** Lines 41-48: ids, ordinal and watch link from the watch record; links and `temp` from the download record. */
  function MergePair(p: (WatchRecord, DownloadRecord)): Merged {
    Merged(p.0.malId, p.0.ep, p.0.watchLink, p.1.hd, p.1.sd, p.1.temp)
  }

  /** `zip(xs, ys)`: pairs by position, as many as the shorter list has. */
  function Zip<A, B>(xs: seq<A>, ys: seq<B>): seq<(A, B)> {
    seq(Min(|xs|, |ys|), k requires 0 <= k < Min(|xs|, |ys|) => (xs[k], ys[k]))
  }

  /** The pairs the two nested `zip` loops visit for the first `n` animes, in visiting order. */
  function PairsUpTo(ws: seq<seq<WatchRecord>>, ds: seq<seq<DownloadRecord>>, n: nat): seq<(WatchRecord, DownloadRecord)>
    requires n <= |ws| && n <= |ds|
  {
    if n == 0 then [] else PairsUpTo(ws, ds, n - 1) + Zip(ws[n - 1], ds[n - 1])
  }

  /** Every pair the loops visit: the outer `zip` drops the anime lists past the shorter outer list. */
  function Pairs(ws: seq<seq<WatchRecord>>, ds: seq<seq<DownloadRecord>>): seq<(WatchRecord, DownloadRecord)> {
    PairsUpTo(ws, ds, Min(|ws|, |ds|))
  }

  /** How many pairs the first `n` animes contribute: the sum of min(|watch list|, |download list|). */
  function CountUpTo(ws: seq<seq<WatchRecord>>, ds: seq<seq<DownloadRecord>>, n: nat): nat
    requires n <= |ws| && n <= |ds|
  {
    if n == 0 then 0 else CountUpTo(ws, ds, n - 1) + Min(|ws[n - 1]|, |ds[n - 1]|)
  }

  lemma {:induction false} PairsLength(ws: seq<seq<WatchRecord>>, ds: seq<seq<DownloadRecord>>, n: nat)
    requires n <= |ws| && n <= |ds|
    ensures |PairsUpTo(ws, ds, n)| == CountUpTo(ws, ds, n)
  {
    if n > 0 {
      PairsLength(ws, ds, n - 1);
    }
  }

  /** Pair `j` of anime `k` sits at position CountUpTo(k) + j. */
  lemma {:induction false} PairAt(ws: seq<seq<WatchRecord>>, ds: seq<seq<DownloadRecord>>, n: nat, k: nat, j: nat)
    requires n <= |ws| && n <= |ds| && k < n && j < Min(|ws[k]|, |ds[k]|)
    ensures |PairsUpTo(ws, ds, n)| == CountUpTo(ws, ds, n)
    ensures CountUpTo(ws, ds, k) + j < CountUpTo(ws, ds, n)
    ensures PairsUpTo(ws, ds, n)[CountUpTo(ws, ds, k) + j] == (ws[k][j], ds[k][j])
  {
    PairsLength(ws, ds, n);
    PairsLength(ws, ds, n - 1);
    var before := PairsUpTo(ws, ds, n - 1);
    var zipped := Zip(ws[n - 1], ds[n - 1]);
    assert PairsUpTo(ws, ds, n) == before + zipped;
    var i := CountUpTo(ws, ds, k) + j;
    if k < n - 1 {
      PairAt(ws, ds, n - 1, k, j);
      assert PairsUpTo(ws, ds, n)[i] == before[i];
    } else {
      assert i == |before| + j;
      assert PairsUpTo(ws, ds, n)[i] == zipped[j];
    }
  }

  /**
   * Merging is positional: the first `n` animes yield exactly the sum of
   * their min(|watch list|, |download list|) pairs, and pair `j` of anime
   * `k` sits at position CountUpTo(k) + j, so anime-then-position order is kept.
   */
  lemma PairsLayout(ws: seq<seq<WatchRecord>>, ds: seq<seq<DownloadRecord>>, n: nat)
    requires n <= |ws| && n <= |ds|
    ensures |PairsUpTo(ws, ds, n)| == CountUpTo(ws, ds, n)
    ensures forall k, j | 0 <= k < n && 0 <= j < Min(|ws[k]|, |ds[k]|) ::
      CountUpTo(ws, ds, k) + j < CountUpTo(ws, ds, n)
      && PairsUpTo(ws, ds, n)[CountUpTo(ws, ds, k) + j] == (ws[k][j], ds[k][j])
  {
    PairsLength(ws, ds, n);
    forall k, j | 0 <= k < n && 0 <= j < Min(|ws[k]|, |ds[k]|)
      ensures CountUpTo(ws, ds, k) + j < CountUpTo(ws, ds, n)
        && PairsUpTo(ws, ds, n)[CountUpTo(ws, ds, k) + j] == (ws[k][j], ds[k][j])
    {
      PairAt(ws, ds, n, k, j);
    }
  }

  /** The pair passes line 38's `assert watch_episode['ep'] == download_episode['episode']`. */
  predicate SameOrdinal(p: (WatchRecord, DownloadRecord)) {
    PyEq(p.0.ep, p.1.episode)
  }

  predicate Agree(ps: seq<(WatchRecord, DownloadRecord)>) {
    forall i | 0 <= i < |ps| :: SameOrdinal(ps[i])
  }

  /** All paired records of anime `k` carry the same ordinal. */
  predicate AnimeAgrees(ws: seq<seq<WatchRecord>>, ds: seq<seq<DownloadRecord>>, k: int)
    requires 0 <= k < |ws| && k < |ds|
  {
    forall j | 0 <= j < Min(|ws[k]|, |ds[k]|) :: PyEq(ws[k][j].ep, ds[k][j].episode)
  }

  lemma AgreeConcat(a: seq<(WatchRecord, DownloadRecord)>, b: seq<(WatchRecord, DownloadRecord)>)
    ensures Agree(a + b) <==> Agree(a) && Agree(b)
  {
    if Agree(a) && Agree(b) {
      forall i | 0 <= i < |a + b|
        ensures SameOrdinal((a + b)[i])
      {
        if i >= |a| {
          assert (a + b)[i] == b[i - |a|];
        }
      }
    }
    if Agree(a + b) {
      forall i | 0 <= i < |a|
        ensures SameOrdinal(a[i])
      {
        assert (a + b)[i] == a[i];
      }
      forall i | 0 <= i < |b|
        ensures SameOrdinal(b[i])
      {
        assert (a + b)[|a| + i] == b[i];
      }
    }
  }

  lemma {:induction false} AgreeUpTo(ws: seq<seq<WatchRecord>>, ds: seq<seq<DownloadRecord>>, n: nat)
    requires n <= |ws| && n <= |ds|
    ensures Agree(PairsUpTo(ws, ds, n)) <==> forall k | 0 <= k < n :: AnimeAgrees(ws, ds, k)
  {
    if n > 0 {
      AgreeUpTo(ws, ds, n - 1);
      var zipped := Zip(ws[n - 1], ds[n - 1]);
      AgreeConcat(PairsUpTo(ws, ds, n - 1), zipped);
      var last := n - 1;
      if Agree(zipped) {
        forall j | 0 <= j < Min(|ws[last]|, |ds[last]|)
          ensures PyEq(ws[last][j].ep, ds[last][j].episode)
        {
          assert SameOrdinal(zipped[j]);
        }
      }
      if AnimeAgrees(ws, ds, n - 1) {
        forall i | 0 <= i < |zipped|
          ensures SameOrdinal(zipped[i])
        {
          assert zipped[i] == (ws[n - 1][i], ds[n - 1][i]);
        }
      }
    }
  }

  function MergeAll(ps: seq<(WatchRecord, DownloadRecord)>): seq<Merged> {
    seq(|ps|, i requires 0 <= i < |ps| => MergePair(ps[i]))
  }

  /**
   * The merge loop of lines 34-49: the merged candidates in visiting order,
   * or the AssertionError of line 38 when some pair disagrees.
   */
  function Combined(ws: seq<seq<WatchRecord>>, ds: seq<seq<DownloadRecord>>): Result<seq<Merged>, PyError> {
    if Agree(Pairs(ws, ds)) then Ok(MergeAll(Pairs(ws, ds))) else Err(AssertionError)
  }

  /**
   * What the merge yields: AssertionError exactly when some anime has a
   * disagreeing pair; otherwise one candidate per pair, candidate
   * CountUpTo(k) + j merging record `j` of anime `k`'s two lists.
   */
  lemma CombinedMeaning(ws: seq<seq<WatchRecord>>, ds: seq<seq<DownloadRecord>>)
    ensures Combined(ws, ds).Ok? <==> forall k | 0 <= k < Min(|ws|, |ds|) :: AnimeAgrees(ws, ds, k)
    ensures Combined(ws, ds).Err? ==> Combined(ws, ds).error == AssertionError
    ensures Combined(ws, ds).Ok? ==> |Combined(ws, ds).value| == CountUpTo(ws, ds, Min(|ws|, |ds|))
    ensures Combined(ws, ds).Ok? ==>
      forall k, j | 0 <= k < Min(|ws|, |ds|) && 0 <= j < Min(|ws[k]|, |ds[k]|) ::
        CountUpTo(ws, ds, k) + j < |Combined(ws, ds).value|
        && Combined(ws, ds).value[CountUpTo(ws, ds, k) + j] == MergePair((ws[k][j], ds[k][j]))
  {
    AgreeUpTo(ws, ds, Min(|ws|, |ds|));
    PairsLayout(ws, ds, Min(|ws|, |ds|));
  }

  /** A disagreeing pair anywhere makes the whole merge fail. */
  lemma MismatchFails(ws: seq<seq<WatchRecord>>, ds: seq<seq<DownloadRecord>>, n: nat, j: nat)
    requires n < |ws| && n < |ds| && j < |ws[n]| && j < |ds[n]|
    requires !PyEq(ws[n][j].ep, ds[n][j].episode)
    ensures Combined(ws, ds) == Err(AssertionError)
  {
    AgreeUpTo(ws, ds, Min(|ws|, |ds|));
    assert !AnimeAgrees(ws, ds, n);
  }

  lemma MergeStep(done: seq<(WatchRecord, DownloadRecord)>, zipped: seq<(WatchRecord, DownloadRecord)>, j: nat)
    requires j < |zipped| && Agree(done + zipped[..j]) && SameOrdinal(zipped[j])
    ensures Agree(done + zipped[..j + 1])
    ensures MergeAll(done + zipped[..j + 1]) == MergeAll(done + zipped[..j]) + [MergePair(zipped[j])]
  {
    assert done + zipped[..j + 1] == (done + zipped[..j]) + [zipped[j]];
    AgreeConcat(done + zipped[..j], [zipped[j]]);
  }

  /** The nested loops of lines 34-49, which stop at the first disagreeing pair. */
  method MergeLinks(ws: seq<seq<WatchRecord>>, ds: seq<seq<DownloadRecord>>) returns (r: Result<seq<Merged>, PyError>)
    ensures r == Combined(ws, ds)
  {
    var combined: seq<Merged> := [];
    var n := 0;
    while n < |ws| && n < |ds|
      invariant n <= |ws| && n <= |ds|
      invariant Agree(PairsUpTo(ws, ds, n))
      invariant combined == MergeAll(PairsUpTo(ws, ds, n))
    {
      ghost var done := PairsUpTo(ws, ds, n);
      ghost var zipped := Zip(ws[n], ds[n]);
      var watchList, downloadList := ws[n], ds[n];
      var j := 0;
      while j < |watchList| && j < |downloadList|
        invariant j <= |watchList| && j <= |downloadList| && j <= |zipped|
        invariant Agree(done + zipped[..j])
        invariant combined == MergeAll(done + zipped[..j])
      {
        if !PyEq(watchList[j].ep, downloadList[j].episode) {
          MismatchFails(ws, ds, n, j);
          return Err(AssertionError);
        }
        MergeStep(done, zipped, j);
        combined := combined + [MergePair((watchList[j], downloadList[j]))];
        j := j + 1;
      }
      assert zipped[..j] == zipped;
      n := n + 1;
    }
    return Ok(combined);
  }

  // ---------------------------------------------------------------- inserting animes and episodes

  /** `insert_data` on a table value: the row under the next id when `accepted`, else BAD_ID and no change. */
  function Inserted<R>(t: Table<R>, accepted: bool, r: R): (Table<R>, int) {
    if accepted then (Append(t, r), t.nextId) else (t, BAD_ID)
  }

  /**
   * Where the anime loop (lines 19-32) has got to: the table, each anime it
   * tried to create with the id its insert returned, and the TypeError of a
   * metadata dict that `Anime.from_dict` rejected.
   */
  datatype AnimeRun = AnimeRun(table: Table<Anime>, created: seq<(Anime, int)>, failure: Option<PyError>)

  /** One iteration of the anime loop. */
  function AnimeStep(prev: AnimeRun, meta: Dict): (r: AnimeRun)
    requires AnimesValid(prev.table)
    ensures AnimesValid(r.table)
  {
    if prev.failure.Some? then prev
    else match AnimeFromDict(meta)
      case Err(_) => AnimeRun(prev.table, prev.created, Some(TypeError))
      case Ok(a) =>
        if AnimeKey(prev.table, a.malId) != BAD_ID then prev
        else
          var (t, id) := Inserted(prev.table, AnimeAccepted(prev.table, a), a);
          if AnimeAccepted(prev.table, a) then AppendKeepsInvariant(prev.table, AnimeConflict, a); AnimeRun(t, prev.created + [(a, id)], None)
          else AnimeRun(t, prev.created + [(a, id)], None)
  }

  /** The anime loop over the first metadata dicts. */
  function AnimesPass(t: Table<Anime>, metas: seq<Dict>): (r: AnimeRun)
    requires AnimesValid(t)
    ensures AnimesValid(r.table)
  {
    if metas == [] then AnimeRun(t, [], None)
    else AnimeStep(AnimesPass(t, metas[..|metas| - 1]), metas[|metas| - 1])
  }

  /** Where the episode loop (lines 55-74) has got to. */
  datatype EpisodeRun = EpisodeRun(table: Table<Episode>, created: seq<(Episode, int)>)

  /**
   * Lines 57-61: the candidate with the `anime_id` found by its `mal_id`
   * (BAD_ID when no anime has it, which nothing rejects: foreign keys are off).
   */
  function EpisodeFor(animes: Table<Anime>, m: Merged): Episode
    requires WellNumbered(animes)
  {
    Episode(PyInt(AnimeKey(animes, m.malId)), m.malId, m.episodeNumber, m.watchLink,
            m.downloadLinkHd, m.downloadLinkSd, m.temp)
  }

  /** The dict of lines 41-48 with `anime_id` added (line 59). */
  function EpisodeData(m: Merged, animeId: int): Dict {
    map["mal_id" := m.malId, "episode_number" := m.episodeNumber, "watch_link" := m.watchLink,
        "download_link_hd" := m.downloadLinkHd, "download_link_sd" := m.downloadLinkSd,
        "temp" := m.temp, "anime_id" := PyInt(animeId)]
  }

  /** `Episode.from_dict` (line 61) never raises here: the dict has exactly the constructor's seven keys. */
  lemma EpisodeDataBinds(animes: Table<Anime>, m: Merged)
    requires WellNumbered(animes)
    ensures EpisodeFromDict(EpisodeData(m, AnimeKey(animes, m.malId))) == Ok(EpisodeFor(animes, m))
  {
    var e := EpisodeFor(animes, m);
    assert EpisodeData(m, AnimeKey(animes, m.malId)) == EpisodeToDict(e);
    EpisodeRoundTrip(e);
  }

  /** One iteration of the episode loop. */
  function EpisodeStep(animes: Table<Anime>, prev: EpisodeRun, m: Merged): (r: EpisodeRun)
    requires WellNumbered(animes) && EpisodesValid(prev.table)
    ensures EpisodesValid(r.table)
  {
    var e := EpisodeFor(animes, m);
    if EpisodeKey(prev.table, e.malId, e.episodeNumber) != BAD_ID then prev
    else
      var (t, id) := Inserted(prev.table, EpisodeAccepted(prev.table, e), e);
      if EpisodeAccepted(prev.table, e) then AppendKeepsInvariant(prev.table, EpisodeConflict, e); EpisodeRun(t, prev.created + [(e, id)])
      else EpisodeRun(t, prev.created + [(e, id)])
  }

  /** The episode loop over the first candidates. */
  function EpisodesPass(animes: Table<Anime>, t: Table<Episode>, cands: seq<Merged>): (r: EpisodeRun)
    requires WellNumbered(animes) && EpisodesValid(t)
    ensures EpisodesValid(r.table)
  {
    if cands == [] then EpisodeRun(t, [])
    else EpisodeStep(animes, EpisodesPass(animes, t, cands[..|cands| - 1]), cands[|cands| - 1])
  }

  /** What `_insert_animes_into_database` leaves in the two tables, and what it returns or raises. */
  datatype Ingestion = Ingestion(animes: Table<Anime>, episodes: Table<Episode>,
                                 result: Result<(seq<(Anime, int)>, seq<(Episode, int)>), PyError>)

  /**
   * The animes first; a rejected metadata dict stops everything with
   * TypeError, a disagreeing pair with AssertionError (the animes already
   * inserted stay); then the episodes.
   */
  function Ingest(ta: Table<Anime>, te: Table<Episode>, metas: seq<Dict>,
                  ws: seq<seq<WatchRecord>>, ds: seq<seq<DownloadRecord>>): (g: Ingestion)
    requires AnimesValid(ta) && EpisodesValid(te)
    ensures AnimesValid(g.animes) && EpisodesValid(g.episodes)
  {
    var ar := AnimesPass(ta, metas);
    if ar.failure.Some? then Ingestion(ar.table, te, Err(ar.failure.value))
    else match Combined(ws, ds)
      case Err(e) => Ingestion(ar.table, te, Err(e))
      case Ok(cands) =>
        var er := EpisodesPass(ar.table, te, cands);
        Ingestion(ar.table, er.table, Ok((ar.created, er.created)))
  }

  lemma AnimesPassStep(t: Table<Anime>, metas: seq<Dict>, i: nat)
    requires AnimesValid(t) && i < |metas|
    ensures AnimesPass(t, metas[..i + 1]) == AnimeStep(AnimesPass(t, metas[..i]), metas[i])
  {
    assert metas[..i + 1][..i] == metas[..i];
  }

  /** Once `from_dict` has raised, the rest of the metadata is never looked at. */
  lemma {:induction false} AnimesPassAborted(t: Table<Anime>, metas: seq<Dict>, n: nat)
    requires AnimesValid(t) && n <= |metas|
    requires AnimesPass(t, metas[..n]).failure.Some?
    ensures AnimesPass(t, metas) == AnimesPass(t, metas[..n])
    decreases |metas| - n
  {
    if n < |metas| {
      AnimesPassStep(t, metas, n);
      AnimesPassAborted(t, metas, n + 1);
    } else {
      assert metas[..n] == metas;
    }
  }

  lemma EpisodesPassStep(animes: Table<Anime>, t: Table<Episode>, cands: seq<Merged>, i: nat)
    requires WellNumbered(animes) && EpisodesValid(t) && i < |cands|
    ensures EpisodesPass(animes, t, cands[..i + 1]) == EpisodeStep(animes, EpisodesPass(animes, t, cands[..i]), cands[i])
  {
    assert cands[..i + 1][..i] == cands[..i];
  }

  /** The anime loop of lines 19-32 on the `animes` table. */
  method InsertAnimes(store: SQLiteAnimes, metas: seq<Dict>) returns (animes: seq<(Anime, int)>, failure: Option<PyError>)
    requires store.Valid()
    modifies store
    ensures store.Valid()
    ensures AnimeRun(store.table, animes, failure) == AnimesPass(old(store.table), metas)
  {
    ghost var t := store.table;
    animes := [];
    var i := 0;
    while i < |metas|
      invariant 0 <= i <= |metas|
      invariant store.Valid()
      invariant AnimesPass(t, metas[..i]) == AnimeRun(store.table, animes, None)
    {
      AnimesPassStep(t, metas, i);
      var parsed := AnimeFromDict(metas[i]);
      if parsed.Err? {
        AnimesPassAborted(t, metas, i + 1);
        return animes, Some(TypeError);
      }
      animes := InsertParsedAnime(store, metas[i], parsed.value, animes);
      i := i + 1;
    }
    assert metas[..i] == metas;
    return animes, None;
  }

  /** Lines 27-31: the anime parsed from `meta` is inserted unless its `mal_id` is already there. */
  method InsertParsedAnime(store: SQLiteAnimes, meta: Dict, anime: Anime, animes: seq<(Anime, int)>) returns (after: seq<(Anime, int)>)
    requires store.Valid() && AnimeFromDict(meta) == Ok(anime)
    modifies store
    ensures store.Valid()
    ensures AnimeRun(store.table, after, None) == AnimeStep(AnimeRun(old(store.table), animes, None), meta)
  {
    after := animes;
    var animeId := store.GetPrimaryKey(anime.malId);
    if animeId == BAD_ID {
      animeId := store.InsertData(anime);
      after := animes + [(anime, animeId)];
    }
  }

  /** The episode loop of lines 55-74 on the `episodes` table, looking the animes up in `animes`. */
  method InsertEpisodes(animes: SQLiteAnimes, store: SQLiteEpisodes, cands: seq<Merged>) returns (episodes: seq<(Episode, int)>)
    requires animes.Valid() && store.Valid()
    modifies store
    ensures store.Valid()
    ensures EpisodeRun(store.table, episodes) == EpisodesPass(animes.table, old(store.table), cands)
  {
    ghost var t := store.table;
    episodes := [];
    var j := 0;
    while j < |cands|
      invariant 0 <= j <= |cands|
      invariant store.Valid()
      invariant EpisodesPass(animes.table, t, cands[..j]) == EpisodeRun(store.table, episodes)
    {
      EpisodesPassStep(animes.table, t, cands, j);
      var m := cands[j];
      var animeId := animes.GetPrimaryKey(m.malId);
      EpisodeDataBinds(animes.table, m);
      var episode := EpisodeFromDict(EpisodeData(m, animeId)).value;
      var episodeId := store.GetPrimaryKey(episode.malId, episode.episodeNumber);
      if episodeId == BAD_ID {
        episodeId := store.InsertData(episode);
        episodes := episodes + [(episode, episodeId)];
      }
      j := j + 1;
    }
    assert cands[..j] == cands;
  }

  /**
   * `_insert_animes_into_database`: check-then-insert of every anime, then
   * of every merged episode; returns what it tried to create, each with the
   * id its insert returned (BAD_ID included), or raises.
   */
  method InsertAnimesIntoDatabase(db: SQLiteDatabaseManager, ws: seq<seq<WatchRecord>>,
                                  ds: seq<seq<DownloadRecord>>, metas: seq<Dict>)
    returns (r: Result<(seq<(Anime, int)>, seq<(Episode, int)>), PyError>)
    requires db.Valid()
    modifies db.animes, db.episodes
    ensures db.Valid()
    ensures Ingestion(db.animes.table, db.episodes.table, r)
      == Ingest(old(db.animes.table), old(db.episodes.table), metas, ws, ds)
  {
    var animes, failure := InsertAnimes(db.animes, metas);
    if failure.Some? {
      return Err(failure.value);
    }
    var merged := MergeLinks(ws, ds);
    if merged.Err? {
      return Err(merged.error);
    }
    var episodes := InsertEpisodes(db.animes, db.episodes, merged.value);
    return Ok((animes, episodes));
  }

  // ---------------------------------------------------------------- what one ingestion creates

  /** The ids of the inserts that succeeded. */
  function StoredIds<T>(cs: seq<(T, int)>): set<int> {
    if cs == [] then {}
    else StoredIds(cs[..|cs| - 1]) + (if cs[|cs| - 1].1 != BAD_ID then {cs[|cs| - 1].1} else {})
  }

  /** Every insert succeeded. */
  predicate AllStored<T>(cs: seq<(T, int)>) {
    forall i | 0 <= i < |cs| :: cs[i].1 != BAD_ID
  }

  /** `c` is a failed insert, or a row that `t'` holds and `t` did not. */
  ghost predicate NewRow<R>(t: Table<R>, t': Table<R>, c: (R, int)) {
    c.1 == BAD_ID || (c.1 !in t.rows && c.1 in t'.rows && t'.rows[c.1] == c.0)
  }

  lemma AnimeKeyGrows(t: Table<Anime>, t': Table<Anime>, malId: PyValue)
    requires WellNumbered(t) && WellNumbered(t') && Extends(t, t')
    ensures AnimeKey(t, malId) != BAD_ID ==> AnimeKey(t', malId) != BAD_ID
  {
    if AnimeKey(t, malId) != BAD_ID {
      var id := AnimeKey(t, malId);
      assert id in t'.rows && Clash(t'.rows[id].malId, malId);
    }
  }

  lemma EpisodeKeyGrows(t: Table<Episode>, t': Table<Episode>, malId: PyValue, episodeNumber: PyValue)
    requires WellNumbered(t) && WellNumbered(t') && Extends(t, t')
    ensures EpisodeKey(t, malId, episodeNumber) != BAD_ID ==> EpisodeKey(t', malId, episodeNumber) != BAD_ID
  {
    if EpisodeKey(t, malId, episodeNumber) != BAD_ID {
      var id := EpisodeKey(t, malId, episodeNumber);
      assert id in t'.rows && Clash(t'.rows[id].malId, malId) && Clash(t'.rows[id].episodeNumber, episodeNumber);
    }
  }

  /** Going from `t` to `t'` added exactly the rows `cs` reports as stored, and changed no other row. */
  ghost predicate Creates<R>(t: Table<R>, t': Table<R>, cs: seq<(R, int)>) {
    Extends(t, t') && t'.rows.Keys == t.rows.Keys + StoredIds(cs)
    && forall i | 0 <= i < |cs| :: NewRow(t, t', cs[i])
  }

  lemma CreatesStep<R>(t: Table<R>, t1: Table<R>, cs: seq<(R, int)>, t2: Table<R>, c: (R, int))
    requires WellNumbered(t1) && Creates(t, t1, cs)
    requires (c.1 == BAD_ID && t2 == t1) || (c.1 == t1.nextId && t2 == Append(t1, c.0))
    ensures Creates(t, t2, cs + [c])
  {
    assert (cs + [c])[..|cs|] == cs;
    forall i | 0 <= i < |cs + [c]|
      ensures NewRow(t, t2, (cs + [c])[i])
    {
      if i < |cs| {
        assert (cs + [c])[i] == cs[i];
      }
    }
  }

  /** One iteration of the anime loop leaves the table alone, or records one more anime whose `mal_id` was unknown. */
  lemma AnimeStepShape(prev: AnimeRun, meta: Dict)
    requires AnimesValid(prev.table)
    ensures var r := AnimeStep(prev, meta);
      (r.table == prev.table && r.created == prev.created)
      || (|r.created| == |prev.created| + 1 && r.created == prev.created + [r.created[|prev.created|]]
          && AnimeKey(prev.table, r.created[|prev.created|].0.malId) == BAD_ID
          && ((r.created[|prev.created|].1 == BAD_ID && r.table == prev.table)
              || (r.created[|prev.created|].1 == prev.table.nextId && r.table == Append(prev.table, r.created[|prev.created|].0))))
  {
  }

  /**
   * The anime loop only adds rows, and exactly the ones it returns with an
   * id other than BAD_ID; every anime it returns had a `mal_id` no stored
   * anime had, so an existing anime is never inserted again.
   */
  lemma {:induction false} AnimesPassCreates(t: Table<Anime>, metas: seq<Dict>)
    requires AnimesValid(t)
    ensures Creates(t, AnimesPass(t, metas).table, AnimesPass(t, metas).created)
    ensures forall i | 0 <= i < |AnimesPass(t, metas).created| ::
      AnimeKey(t, AnimesPass(t, metas).created[i].0.malId) == BAD_ID
  {
    if metas != [] {
      AnimesPassCreates(t, metas[..|metas| - 1]);
      assert AnimesPass(t, metas) == AnimeStep(AnimesPass(t, metas[..|metas| - 1]), metas[|metas| - 1]);
      AnimeStepCreates(t, AnimesPass(t, metas[..|metas| - 1]), metas[|metas| - 1]);
    }
  }

  /** The table and the created list after one iteration of the anime loop, given its possible shapes. */
  lemma AnimesGrowCreates(t: Table<Anime>, t1: Table<Anime>, cs1: seq<(Anime, int)>, t2: Table<Anime>, cs2: seq<(Anime, int)>)
    requires AnimesValid(t) && AnimesValid(t1) && Creates(t, t1, cs1)
    requires forall i | 0 <= i < |cs1| :: AnimeKey(t, cs1[i].0.malId) == BAD_ID
    requires (t2 == t1 && cs2 == cs1)
      || (|cs2| == |cs1| + 1 && cs2 == cs1 + [cs2[|cs1|]]
          && AnimeKey(t1, cs2[|cs1|].0.malId) == BAD_ID
          && ((cs2[|cs1|].1 == BAD_ID && t2 == t1) || (cs2[|cs1|].1 == t1.nextId && t2 == Append(t1, cs2[|cs1|].0))))
    ensures Creates(t, t2, cs2)
    ensures forall i | 0 <= i < |cs2| :: AnimeKey(t, cs2[i].0.malId) == BAD_ID
  {
    if cs2 != cs1 {
      var c := cs2[|cs1|];
      CreatesStep(t, t1, cs1, t2, c);
      forall i | 0 <= i < |cs2|
        ensures AnimeKey(t, cs2[i].0.malId) == BAD_ID
      {
        if i < |cs1| {
          assert cs2[i] == cs1[i];
        } else {
          AnimeKeyGrows(t, t1, c.0.malId);
        }
      }
    }
  }

  /** One iteration of the anime loop keeps `Creates` and adds only animes whose key `t` lacked. */
  lemma AnimeStepCreates(t: Table<Anime>, prev: AnimeRun, meta: Dict)
    requires AnimesValid(t) && AnimesValid(prev.table)
    requires Creates(t, prev.table, prev.created)
    requires forall i | 0 <= i < |prev.created| :: AnimeKey(t, prev.created[i].0.malId) == BAD_ID
    ensures Creates(t, AnimeStep(prev, meta).table, AnimeStep(prev, meta).created)
    ensures forall i | 0 <= i < |AnimeStep(prev, meta).created| ::
      AnimeKey(t, AnimeStep(prev, meta).created[i].0.malId) == BAD_ID
  {
    var r := AnimeStep(prev, meta);
    AnimeStepShape(prev, meta);
    AnimesGrowCreates(t, prev.table, prev.created, r.table, r.created);
  }

  /** One iteration of the episode loop leaves the table alone, or records one more episode whose key was unknown. */
  lemma EpisodeStepShape(animes: Table<Anime>, prev: EpisodeRun, m: Merged)
    requires WellNumbered(animes) && EpisodesValid(prev.table)
    ensures var r := EpisodeStep(animes, prev, m);
      (r.table == prev.table && r.created == prev.created)
      || (|r.created| == |prev.created| + 1 && r.created == prev.created + [r.created[|prev.created|]]
          && EpisodeKey(prev.table, r.created[|prev.created|].0.malId, r.created[|prev.created|].0.episodeNumber) == BAD_ID
          && ((r.created[|prev.created|].1 == BAD_ID && r.table == prev.table)
              || (r.created[|prev.created|].1 == prev.table.nextId && r.table == Append(prev.table, r.created[|prev.created|].0))))
  {
  }

  /** The same for the episode loop: an existing `(mal_id, episode_number)` key is never inserted again. */
  lemma {:induction false} EpisodesPassCreates(animes: Table<Anime>, t: Table<Episode>, cands: seq<Merged>)
    requires WellNumbered(animes) && EpisodesValid(t)
    ensures Creates(t, EpisodesPass(animes, t, cands).table, EpisodesPass(animes, t, cands).created)
    ensures forall i | 0 <= i < |EpisodesPass(animes, t, cands).created| ::
      EpisodeKey(t, EpisodesPass(animes, t, cands).created[i].0.malId,
                 EpisodesPass(animes, t, cands).created[i].0.episodeNumber) == BAD_ID
  {
    if cands != [] {
      EpisodesPassCreates(animes, t, cands[..|cands| - 1]);
      EpisodesPassLast(animes, t, cands);
      EpisodeStepCreates(animes, t, EpisodesPass(animes, t, cands[..|cands| - 1]), cands[|cands| - 1]);
    }
  }

  /** The table and the created list after one iteration of the episode loop, given its possible shapes. */
  lemma EpisodesGrowCreates(t: Table<Episode>, t1: Table<Episode>, cs1: seq<(Episode, int)>, t2: Table<Episode>, cs2: seq<(Episode, int)>)
    requires EpisodesValid(t) && EpisodesValid(t1) && Creates(t, t1, cs1)
    requires forall i | 0 <= i < |cs1| :: EpisodeKey(t, cs1[i].0.malId, cs1[i].0.episodeNumber) == BAD_ID
    requires (t2 == t1 && cs2 == cs1)
      || (|cs2| == |cs1| + 1 && cs2 == cs1 + [cs2[|cs1|]]
          && EpisodeKey(t1, cs2[|cs1|].0.malId, cs2[|cs1|].0.episodeNumber) == BAD_ID
          && ((cs2[|cs1|].1 == BAD_ID && t2 == t1) || (cs2[|cs1|].1 == t1.nextId && t2 == Append(t1, cs2[|cs1|].0))))
    ensures Creates(t, t2, cs2)
    ensures forall i | 0 <= i < |cs2| :: EpisodeKey(t, cs2[i].0.malId, cs2[i].0.episodeNumber) == BAD_ID
  {
    if cs2 != cs1 {
      var c := cs2[|cs1|];
      CreatesStep(t, t1, cs1, t2, c);
      forall i | 0 <= i < |cs2|
        ensures EpisodeKey(t, cs2[i].0.malId, cs2[i].0.episodeNumber) == BAD_ID
      {
        if i < |cs1| {
          assert cs2[i] == cs1[i];
        } else {
          EpisodeKeyGrows(t, t1, c.0.malId, c.0.episodeNumber);
        }
      }
    }
  }

  /** One iteration of the episode loop keeps `Creates` and adds only episodes whose key `t` lacked. */
  lemma EpisodeStepCreates(animes: Table<Anime>, t: Table<Episode>, prev: EpisodeRun, m: Merged)
    requires WellNumbered(animes) && EpisodesValid(t) && EpisodesValid(prev.table)
    requires Creates(t, prev.table, prev.created)
    requires forall i | 0 <= i < |prev.created| ::
      EpisodeKey(t, prev.created[i].0.malId, prev.created[i].0.episodeNumber) == BAD_ID
    ensures Creates(t, EpisodeStep(animes, prev, m).table, EpisodeStep(animes, prev, m).created)
    ensures forall i | 0 <= i < |EpisodeStep(animes, prev, m).created| ::
      EpisodeKey(t, EpisodeStep(animes, prev, m).created[i].0.malId,
                 EpisodeStep(animes, prev, m).created[i].0.episodeNumber) == BAD_ID
  {
    var r := EpisodeStep(animes, prev, m);
    EpisodeStepShape(animes, prev, m);
    EpisodesGrowCreates(t, prev.table, prev.created, r.table, r.created);
  }

  // ---------------------------------------------------------------- running the ingestion twice

  /** One iteration of the anime loop that ends with no failure and no rejected insert leaves the dict's anime stored. */
  lemma AnimeStepCovers(prev: AnimeRun, meta: Dict)
    requires AnimesValid(prev.table)
    requires AnimeStep(prev, meta).failure.None? && AllStored(AnimeStep(prev, meta).created)
    ensures prev.failure.None? && AllStored(prev.created)
    ensures Extends(prev.table, AnimeStep(prev, meta).table)
    ensures AnimeCovered(AnimeStep(prev, meta).table, meta)
  {
    var r := AnimeStep(prev, meta);
    var a := AnimeFromDict(meta).value;
    if AnimeKey(prev.table, a.malId) != BAD_ID {
      assert r == prev;
    } else {
      assert r.created[|prev.created|] == (a, r.created[|prev.created|].1);
      assert forall i | 0 <= i < |prev.created| :: r.created[i] == prev.created[i];
      AnimeInsertThenLookup(prev.table, a);
      AppendExtends(prev.table, a);
    }
  }

  /**
   * When no anime insert failed, every metadata dict's anime is in the
   * table afterwards (found or inserted).
   */
  lemma {:induction false} AnimesPassCovers(t: Table<Anime>, metas: seq<Dict>)
    requires AnimesValid(t)
    requires AnimesPass(t, metas).failure.None? && AllStored(AnimesPass(t, metas).created)
    ensures forall i | 0 <= i < |metas| :: AnimeCovered(AnimesPass(t, metas).table, metas[i])
  {
    if metas != [] {
      var front := metas[..|metas| - 1];
      var prev := AnimesPass(t, front);
      var r := AnimesPass(t, metas);
      assert r == AnimeStep(prev, metas[|metas| - 1]);
      AnimeStepCovers(prev, metas[|metas| - 1]);
      assert prev.failure.None? && AllStored(prev.created);
      AnimesPassCovers(t, front);
      assert forall i | 0 <= i < |metas| - 1 :: metas[i] == front[i];
      AnimeCoveredGrows(prev.table, r.table, metas);
    }
  }

  /** The metadata dict parses and its anime's `mal_id` is stored. */
  ghost predicate AnimeCovered(t: Table<Anime>, meta: Dict)
    requires WellNumbered(t)
  {
    AnimeFromDict(meta).Ok? && AnimeKey(t, AnimeFromDict(meta).value.malId) != BAD_ID
  }

  lemma AnimeCoveredGrows(t: Table<Anime>, t': Table<Anime>, metas: seq<Dict>)
    requires WellNumbered(t) && WellNumbered(t') && Extends(t, t') && metas != []
    requires forall i | 0 <= i < |metas| - 1 :: AnimeCovered(t, metas[i])
    requires AnimeCovered(t', metas[|metas| - 1])
    ensures forall i | 0 <= i < |metas| :: AnimeCovered(t', metas[i])
  {
    forall i | 0 <= i < |metas| - 1
      ensures AnimeCovered(t', metas[i])
    {
      AnimeKeyGrows(t, t', AnimeFromDict(metas[i]).value.malId);
    }
  }

  /** When every metadata dict's anime is already stored, the anime loop changes and returns nothing. */
  lemma {:induction false} AnimesPassStable(t: Table<Anime>, metas: seq<Dict>)
    requires AnimesValid(t)
    requires forall i | 0 <= i < |metas| :: AnimeCovered(t, metas[i])
    ensures AnimesPass(t, metas) == AnimeRun(t, [], None)
  {
    if metas != [] {
      var front := metas[..|metas| - 1];
      assert forall i | 0 <= i < |front| :: front[i] == metas[i];
      AnimesPassStable(t, front);
    }
  }

  /** One iteration of the episode loop whose insert was not rejected leaves the candidate's key stored. */
  lemma EpisodeStepCovers(animes: Table<Anime>, prev: EpisodeRun, m: Merged)
    requires WellNumbered(animes) && EpisodesValid(prev.table)
    requires AllStored(EpisodeStep(animes, prev, m).created)
    ensures Extends(prev.table, EpisodeStep(animes, prev, m).table)
    ensures EpisodeCovered(EpisodeStep(animes, prev, m).table, m)
  {
    var r := EpisodeStep(animes, prev, m);
    var e := EpisodeFor(animes, m);
    if EpisodeKey(prev.table, e.malId, e.episodeNumber) != BAD_ID {
      assert r == prev;
    } else {
      assert r.created[|prev.created|] == (e, r.created[|prev.created|].1);
      EpisodeInsertThenLookup(prev.table, e);
      AppendExtends(prev.table, e);
    }
  }

  /** When no episode insert failed, every candidate's `(mal_id, episode_number)` is in the table afterwards. */
  lemma {:induction false} EpisodesPassCovers(animes: Table<Anime>, t: Table<Episode>, cands: seq<Merged>)
    requires WellNumbered(animes) && EpisodesValid(t)
    requires AllStored(EpisodesPass(animes, t, cands).created)
    ensures forall i | 0 <= i < |cands| :: EpisodeCovered(EpisodesPass(animes, t, cands).table, cands[i])
  {
    if cands != [] {
      var n := |cands| - 1;
      EpisodesPassCoversLast(animes, t, cands);
      EpisodesPassCreatedGrows(animes, t, cands);
      AllStoredPrefix(EpisodesPass(animes, t, cands[..n]).created, EpisodesPass(animes, t, cands).created);
      EpisodesPassCovers(animes, t, cands[..n]);
      EpisodeCoveredGrows(EpisodesPass(animes, t, cands[..n]).table, EpisodesPass(animes, t, cands).table, cands[..n], cands);
    }
  }

  lemma EpisodesPassCoversLast(animes: Table<Anime>, t: Table<Episode>, cands: seq<Merged>)
    requires WellNumbered(animes) && EpisodesValid(t) && cands != []
    requires AllStored(EpisodesPass(animes, t, cands).created)
    ensures Extends(EpisodesPass(animes, t, cands[..|cands| - 1]).table, EpisodesPass(animes, t, cands).table)
    ensures EpisodeCovered(EpisodesPass(animes, t, cands).table, cands[|cands| - 1])
  {
    EpisodesPassLast(animes, t, cands);
    EpisodeStepCovers(animes, EpisodesPass(animes, t, cands[..|cands| - 1]), cands[|cands| - 1]);
  }

  /** The episode loop only appends to the list of created rows. */
  lemma EpisodesPassCreatedGrows(animes: Table<Anime>, t: Table<Episode>, cands: seq<Merged>)
    requires WellNumbered(animes) && EpisodesValid(t) && cands != []
    ensures EpisodesPass(animes, t, cands[..|cands| - 1]).created <= EpisodesPass(animes, t, cands).created
  {
    EpisodesPassLast(animes, t, cands);
  }

  lemma AllStoredPrefix<T>(front: seq<(T, int)>, cs: seq<(T, int)>)
    requires front <= cs && AllStored(cs)
    ensures AllStored(front)
  {
  }

  lemma EpisodesPassLast(animes: Table<Anime>, t: Table<Episode>, cands: seq<Merged>)
    requires WellNumbered(animes) && EpisodesValid(t) && cands != []
    ensures EpisodesPass(animes, t, cands) == EpisodeStep(animes, EpisodesPass(animes, t, cands[..|cands| - 1]), cands[|cands| - 1])
  {
  }

  /** The candidate's `(mal_id, episode_number)` is stored. */
  ghost predicate EpisodeCovered(t: Table<Episode>, m: Merged)
    requires WellNumbered(t)
  {
    EpisodeKey(t, m.malId, m.episodeNumber) != BAD_ID
  }

  lemma EpisodeCoveredGrows(t: Table<Episode>, t': Table<Episode>, front: seq<Merged>, cands: seq<Merged>)
    requires WellNumbered(t) && WellNumbered(t') && Extends(t, t') && cands != [] && front == cands[..|cands| - 1]
    requires forall i | 0 <= i < |front| :: EpisodeCovered(t, front[i])
    requires EpisodeCovered(t', cands[|cands| - 1])
    ensures forall i | 0 <= i < |cands| :: EpisodeCovered(t', cands[i])
  {
    forall i | 0 <= i < |front|
      ensures EpisodeCovered(t', cands[i])
    {
      assert front[i] == cands[i];
      EpisodeKeyGrows(t, t', cands[i].malId, cands[i].episodeNumber);
    }
  }

  /** When every candidate's key is already stored, the episode loop changes and returns nothing. */
  lemma {:induction false} EpisodesPassStable(animes: Table<Anime>, t: Table<Episode>, cands: seq<Merged>)
    requires WellNumbered(animes) && EpisodesValid(t)
    requires forall i | 0 <= i < |cands| :: EpisodeCovered(t, cands[i])
    ensures EpisodesPass(animes, t, cands) == EpisodeRun(t, [])
  {
    if cands != [] {
      var front := cands[..|cands| - 1];
      assert forall i | 0 <= i < |front| :: front[i] == cands[i];
      EpisodesPassStable(animes, t, front);
    }
  }

  /**
   * Idempotence: when a run succeeds and none of its inserts failed, a
   * second run on the same input returns two empty lists and leaves both
   * tables as the first run left them.
   */
  lemma IngestIdempotent(ta: Table<Anime>, te: Table<Episode>, metas: seq<Dict>,
                         ws: seq<seq<WatchRecord>>, ds: seq<seq<DownloadRecord>>)
    requires AnimesValid(ta) && EpisodesValid(te)
    requires Ingest(ta, te, metas, ws, ds).result.Ok?
    requires AllStored(Ingest(ta, te, metas, ws, ds).result.value.0)
    requires AllStored(Ingest(ta, te, metas, ws, ds).result.value.1)
    ensures var g := Ingest(ta, te, metas, ws, ds);
      Ingest(g.animes, g.episodes, metas, ws, ds) == Ingestion(g.animes, g.episodes, Ok(([], [])))
  {
    var ar := AnimesPass(ta, metas);
    AnimesPassCovers(ta, metas);
    AnimesPassStable(ar.table, metas);
    var cands := Combined(ws, ds).value;
    EpisodesPassCovers(ar.table, te, cands);
    EpisodesPassStable(ar.table, EpisodesPass(ar.table, te, cands).table, cands);
  }

  // ---------------------------------------------------------------- publication records

  /**
   * What `_verify_if_platform_and_channel_are_in_database` (lines 144-159)
   * was meant to find: a not-found sentinel, or both rows. `values.py`
   * defines no `NOT_FOUND`; see `LocateChannelAsWritten`.
   */
  datatype Location = NotLocated | Located(platformId: int, platform: Platform, channelId: int, channel: Channel)

  /**
   * The platform is looked up by name, then the channel by `(platform_id,
   * chat_id)`; either lookup missing gives NOT_FOUND, otherwise both stored
   * rows come back.
   */
  function LocateChannel(platforms: Table<Platform>, channels: Table<Channel>, platformName: string, chatId: int): (r: Location)
    requires WellNumbered(platforms) && WellNumbered(channels)
    ensures r.NotLocated? <==> (PlatformKey(platforms, PyStr(platformName)) == BAD_ID
      || ChannelKey(channels, PyInt(PlatformKey(platforms, PyStr(platformName))), PyInt(chatId)) == BAD_ID)
    ensures r.Located? ==> (r.platformId in platforms.rows && platforms.rows[r.platformId] == r.platform
      && Clash(r.platform.platformName, PyStr(platformName)))
    ensures r.Located? ==> (r.channelId in channels.rows && channels.rows[r.channelId] == r.channel
      && Clash(r.channel.platformId, PyInt(r.platformId)) && Clash(r.channel.chatId, PyInt(chatId)))
  {
    var platformId := PlatformKey(platforms, PyStr(platformName));
    if platformId == BAD_ID then NotLocated
    else
      var channelId := ChannelKey(channels, PyInt(platformId), PyInt(chatId));
      if channelId == BAD_ID then NotLocated
      else Located(platformId, Get(platforms, platformId).value, channelId, Get(channels, channelId).value)
  }

  /**
   * The answers `verify_if_anime_is_on_channel` was meant to give: the
   * sentinels `NOT_FOUND` and `EXISTS_IN_DB`, which `values.py` does not
   * define (see `OnChannelAsWritten`), or False.
   */
  datatype Presence = ChannelNotFound | ExistsInDb | NotOnChannel

  /** Lines 161-177: whether `msgs_an` records the anime for the located channel. */
  function OnChannel(platforms: Table<Platform>, channels: Table<Channel>, msgs: Table<MessageAnime>,
                     animeId: int, platformName: string, chatId: int): (r: Presence)
    requires WellNumbered(platforms) && WellNumbered(channels) && WellNumbered(msgs)
    ensures r == ChannelNotFound <==> LocateChannel(platforms, channels, platformName, chatId).NotLocated?
    ensures r == ExistsInDb <==> (LocateChannel(platforms, channels, platformName, chatId).Located? &&
      exists k | k in msgs.rows :: (Clash(msgs.rows[k].animeId, PyInt(animeId))
        && Clash(msgs.rows[k].channelId, PyInt(LocateChannel(platforms, channels, platformName, chatId).channelId))))
  {
    match LocateChannel(platforms, channels, platformName, chatId)
    case NotLocated => ChannelNotFound
    case Located(_, _, channelId, _) =>
      if MessageAnimeKey(msgs, PyInt(animeId), PyInt(channelId)) != BAD_ID then ExistsInDb else NotOnChannel
  }

  /**
   * `_verify_if_platform_and_channel_are_in_database` as written: `values.py`
   * defines no `NOT_FOUND`, so both `return values.NOT_FOUND` raise
   * AttributeError, and when both rows exist the written `get_by_id` raises
   * TypeError on the stored platform. It never returns a location.
   */
  function LocateChannelAsWritten(platforms: SQLitePlatforms, channels: SQLiteChannels, platformName: string, chatId: int)
    : (r: Result<Location, PyError>)
    reads platforms, channels
    requires platforms.Valid() && channels.Valid()
    ensures r == Err(if LocateChannel(platforms.table, channels.table, platformName, chatId).NotLocated?
      then AttributeError else TypeError)
  {
    var platformId := platforms.GetPrimaryKey(PyStr(platformName));
    if platformId == BAD_ID then Err(AttributeError)
    else
      var channelId := channels.GetPrimaryKey(PyInt(platformId), PyInt(chatId));
      if channelId == BAD_ID then Err(AttributeError)
      // the written `get_by_id(platform_id)` raises on the stored platform, so the channel is never read
      else Err(platforms.GetByIdAsWritten(platformId).error)
  }

  /**
   * `verify_if_anime_is_on_channel` as written: what the lookup raises
   * escapes, and a lookup that returned would still reach line 167, whose
   * comparison with the undefined `values.NOT_FOUND` raises AttributeError;
   * so neither the anime nor `msgs_an` is ever consulted.
   */
  function OnChannelAsWritten(platforms: SQLitePlatforms, channels: SQLiteChannels, platformName: string, chatId: int)
    : (r: Result<Presence, PyError>)
    reads platforms, channels
    requires platforms.Valid() && channels.Valid()
    ensures r == Err(if LocateChannel(platforms.table, channels.table, platformName, chatId).NotLocated?
      then AttributeError else TypeError)
  {
    Err(LocateChannelAsWritten(platforms, channels, platformName, chatId).error)
  }

  /** A save: the publication table afterwards, and the record with the id its insert returned, or None. */
  datatype Saved<R> = Saved(table: Table<R>, record: Option<(R, int)>)

  /** The row `save_msg_an` builds (line 198). */
  function MsgAnFor(animeId: int, messageId: int, channelId: int): MessageAnime {
    MessageAnime(PyInt(animeId), PyInt(messageId), PyInt(channelId))
  }

  /** The row `save_msg_ep` builds (line 223). */
  function MsgEpFor(episodeId: int, messageId: int, channelId: int): MessageEpisode {
    MessageEpisode(PyInt(episodeId), PyInt(messageId), PyInt(channelId))
  }

  /**
   * `save_msg_an` (lines 193-200): only when both the platform id and the
   * channel id are known is the row inserted; otherwise the function falls
   * off its end and returns None.
   */
  function SaveAn(platforms: Table<Platform>, channels: Table<Channel>, msgs: Table<MessageAnime>,
                  animeId: int, messageId: int, platformName: string, chatId: int): (r: Saved<MessageAnime>)
    requires WellNumbered(platforms) && WellNumbered(channels) && MsgsAnValid(msgs)
    ensures MsgsAnValid(r.table)
  {
    var platformId := PlatformKey(platforms, PyStr(platformName));
    if platformId == BAD_ID then Saved(msgs, None)
    else
      var channelId := ChannelKey(channels, PyInt(platformId), PyInt(chatId));
      if channelId == BAD_ID then Saved(msgs, None)
      else
        var m := MsgAnFor(animeId, messageId, channelId);
        var (t, id) := Inserted(msgs, MessageAnimeAccepted(msgs, m), m);
        if MessageAnimeAccepted(msgs, m) then AppendKeepsInvariant(msgs, MessageAnimeConflict, m); Saved(t, Some((m, id)))
        else Saved(t, Some((m, id)))
  }

  /** `save_msg_ep` (lines 218-225), the same for an episode. */
  function SaveEp(platforms: Table<Platform>, channels: Table<Channel>, msgs: Table<MessageEpisode>,
                  episodeId: int, messageId: int, platformName: string, chatId: int): (r: Saved<MessageEpisode>)
    requires WellNumbered(platforms) && WellNumbered(channels) && MsgsEpValid(msgs)
    ensures MsgsEpValid(r.table)
  {
    var platformId := PlatformKey(platforms, PyStr(platformName));
    if platformId == BAD_ID then Saved(msgs, None)
    else
      var channelId := ChannelKey(channels, PyInt(platformId), PyInt(chatId));
      if channelId == BAD_ID then Saved(msgs, None)
      else
        var m := MsgEpFor(episodeId, messageId, channelId);
        var (t, id) := Inserted(msgs, MessageEpisodeAccepted(msgs, m), m);
        if MessageEpisodeAccepted(msgs, m) then AppendKeepsInvariant(msgs, MessageEpisodeConflict, m); Saved(t, Some((m, id)))
        else Saved(t, Some((m, id)))
  }

  /**
   * At-most-once publication of an anime: `save_msg_an` returns None and
   * changes nothing exactly when the channel is unknown; otherwise it stores
   * a new row exactly when `verify_if_anime_is_on_channel` would have
   * answered False, after which it answers EXISTS_IN_DB; when it already
   * answered EXISTS_IN_DB the insert is refused and the table is unchanged.
   */
  lemma SaveAnMeaning(platforms: Table<Platform>, channels: Table<Channel>, msgs: Table<MessageAnime>,
                      animeId: int, messageId: int, platformName: string, chatId: int)
    requires WellNumbered(platforms) && WellNumbered(channels) && MsgsAnValid(msgs)
    ensures var r := SaveAn(platforms, channels, msgs, animeId, messageId, platformName, chatId);
      var at := LocateChannel(platforms, channels, platformName, chatId);
      && (r.record.None? <==> at.NotLocated?)
      && (r.record.None? ==> r.table == msgs)
      && (r.record.Some? ==> r.record.value.0 == MsgAnFor(animeId, messageId, at.channelId))
      && (r.record.Some? && r.record.value.1 != BAD_ID
          <==> OnChannel(platforms, channels, msgs, animeId, platformName, chatId) == NotOnChannel)
      && (r.record.Some? && r.record.value.1 == BAD_ID ==> r.table == msgs)
      && (r.record.Some? && r.record.value.1 != BAD_ID ==>
          r.record.value.1 == msgs.nextId && r.table == Append(msgs, r.record.value.0)
          && OnChannel(platforms, channels, r.table, animeId, platformName, chatId) == ExistsInDb)
  {
    var at := LocateChannel(platforms, channels, platformName, chatId);
    if at.Located? {
      var m := MsgAnFor(animeId, messageId, at.channelId);
      if MessageAnimeKey(msgs, PyInt(animeId), PyInt(at.channelId)) == BAD_ID {
        assert MessageAnimeAccepted(msgs, m);
        MessageAnimeInsertThenLookup(msgs, m);
      } else {
        var k := MessageAnimeKey(msgs, PyInt(animeId), PyInt(at.channelId));
        assert MessageAnimeConflict(msgs.rows[k], m);
      }
    }
  }

  /** A second `save_msg_an` for the same anime and channel, whatever its message id, is refused and changes nothing. */
  lemma SaveAnTwice(platforms: Table<Platform>, channels: Table<Channel>, msgs: Table<MessageAnime>,
                    animeId: int, messageId: int, messageId': int, platformName: string, chatId: int)
    requires WellNumbered(platforms) && WellNumbered(channels) && MsgsAnValid(msgs)
    requires var r := SaveAn(platforms, channels, msgs, animeId, messageId, platformName, chatId);
      r.record.Some? && r.record.value.1 != BAD_ID
    ensures var r := SaveAn(platforms, channels, msgs, animeId, messageId, platformName, chatId);
      var r' := SaveAn(platforms, channels, r.table, animeId, messageId', platformName, chatId);
      r'.record.Some? && r'.record.value.1 == BAD_ID && r'.table == r.table
  {
    var r := SaveAn(platforms, channels, msgs, animeId, messageId, platformName, chatId);
    SaveAnMeaning(platforms, channels, msgs, animeId, messageId, platformName, chatId);
    SaveAnMeaning(platforms, channels, r.table, animeId, messageId', platformName, chatId);
  }

  /**
   * The same for an episode: None and no change exactly when the channel is
   * unknown; a new row exactly when `msgs_ep` has none for the episode and
   * channel, after which one is found; a refused insert changes nothing.
   */
  lemma SaveEpMeaning(platforms: Table<Platform>, channels: Table<Channel>, msgs: Table<MessageEpisode>,
                      episodeId: int, messageId: int, platformName: string, chatId: int)
    requires WellNumbered(platforms) && WellNumbered(channels) && MsgsEpValid(msgs)
    ensures var r := SaveEp(platforms, channels, msgs, episodeId, messageId, platformName, chatId);
      var at := LocateChannel(platforms, channels, platformName, chatId);
      && (r.record.None? <==> at.NotLocated?)
      && (r.record.None? ==> r.table == msgs)
      && (r.record.Some? ==> r.record.value.0 == MsgEpFor(episodeId, messageId, at.channelId))
      && (r.record.Some? ==> (r.record.value.1 != BAD_ID
          <==> MessageEpisodeKey(msgs, PyInt(episodeId), PyInt(at.channelId)) == BAD_ID))
      && (r.record.Some? && r.record.value.1 == BAD_ID ==> r.table == msgs)
      && (r.record.Some? && r.record.value.1 != BAD_ID ==>
          r.record.value.1 == msgs.nextId && r.table == Append(msgs, r.record.value.0)
          && MessageEpisodeKey(r.table, PyInt(episodeId), PyInt(at.channelId)) == r.record.value.1)
  {
    var at := LocateChannel(platforms, channels, platformName, chatId);
    if at.Located? {
      var m := MsgEpFor(episodeId, messageId, at.channelId);
      if MessageEpisodeKey(msgs, PyInt(episodeId), PyInt(at.channelId)) == BAD_ID {
        assert MessageEpisodeAccepted(msgs, m);
        MessageEpisodeInsertThenLookup(msgs, m);
      } else {
        var k := MessageEpisodeKey(msgs, PyInt(episodeId), PyInt(at.channelId));
        assert MessageEpisodeConflict(msgs.rows[k], m);
      }
    }
  }

  /** A second `save_msg_ep` for the same episode and channel is refused and changes nothing. */
  lemma SaveEpTwice(platforms: Table<Platform>, channels: Table<Channel>, msgs: Table<MessageEpisode>,
                    episodeId: int, messageId: int, messageId': int, platformName: string, chatId: int)
    requires WellNumbered(platforms) && WellNumbered(channels) && MsgsEpValid(msgs)
    requires var r := SaveEp(platforms, channels, msgs, episodeId, messageId, platformName, chatId);
      r.record.Some? && r.record.value.1 != BAD_ID
    ensures var r := SaveEp(platforms, channels, msgs, episodeId, messageId, platformName, chatId);
      var r' := SaveEp(platforms, channels, r.table, episodeId, messageId', platformName, chatId);
      r'.record.Some? && r'.record.value.1 == BAD_ID && r'.table == r.table
  {
    var r := SaveEp(platforms, channels, msgs, episodeId, messageId, platformName, chatId);
    SaveEpMeaning(platforms, channels, msgs, episodeId, messageId, platformName, chatId);
    SaveEpMeaning(platforms, channels, r.table, episodeId, messageId', platformName, chatId);
  }

  /** `save_msg_an` on the database. */
  method SaveMsgAn(db: SQLiteDatabaseManager, animeId: int, messageId: int, platformName: string, chatId: int)
    returns (r: Option<(MessageAnime, int)>)
    requires db.Valid()
    modifies db.msgsAn
    ensures db.Valid()
    ensures Saved(db.msgsAn.table, r)
      == SaveAn(db.platforms.table, db.channels.table, old(db.msgsAn.table), animeId, messageId, platformName, chatId)
  {
    var platformId := db.platforms.GetPrimaryKey(PyStr(platformName));
    if platformId == BAD_ID {
      return None;
    }
    var channelId := db.channels.GetPrimaryKey(PyInt(platformId), PyInt(chatId));
    if channelId == BAD_ID {
      return None;
    }
    var m := MessageAnime(PyInt(animeId), PyInt(messageId), PyInt(channelId));
    var id := db.msgsAn.InsertData(m);
    r := Some((m, id));
  }

  /** `save_msg_ep` on the database. */
  method SaveMsgEp(db: SQLiteDatabaseManager, episodeId: int, messageId: int, platformName: string, chatId: int)
    returns (r: Option<(MessageEpisode, int)>)
    requires db.Valid()
    modifies db.msgsEp
    ensures db.Valid()
    ensures Saved(db.msgsEp.table, r)
      == SaveEp(db.platforms.table, db.channels.table, old(db.msgsEp.table), episodeId, messageId, platformName, chatId)
  {
    var platformId := db.platforms.GetPrimaryKey(PyStr(platformName));
    if platformId == BAD_ID {
      return None;
    }
    var channelId := db.channels.GetPrimaryKey(PyInt(platformId), PyInt(chatId));
    if channelId == BAD_ID {
      return None;
    }
    var m := MessageEpisode(PyInt(episodeId), PyInt(messageId), PyInt(channelId));
    var id := db.msgsEp.InsertData(m);
    r := Some((m, id));
  }

  // ---------------------------------------------------------------- the AnimesTele channel

  const TELEGRAM_NAME := "telegram"
  const ANIMESTELE_NAME := "animestele"
  const ANIMESTELE_ID := -1002039517569
  const ANIMESTELE_DESCRIPTION := "AnimesTele é a sua plataforma de animes no Telegram! Somente animes legendados em pt-br. Use nosso bot para pesquisar: - AnimesTeleOficialBot: @animestele_oficial_bot"

  /** What `init_animestele` leaves in the two tables and returns. */
  datatype Setup = Setup(platforms: Table<Platform>, channels: Table<Channel>,
                         platformId: int, platform: Platform, channelId: int, channel: Channel)

  /** The channel row `init_animestele` builds (lines 270 and 278). */
  function ChannelFor(platformId: int, chatName: string, chatId: int, description: string): Channel {
    Channel(PyInt(platformId), PyStr(chatName), PyInt(chatId), PyStr(description))
  }

  /**
   * `init_animestele` (lines 259-285) as it was evidently meant: the
   * absence tests compare with BAD_ID, which is what the lookups return, and
   * the "both exist" branch reads the channel by its `channel_id`. A missing
   * platform is inserted together with its channel; a missing channel is
   * inserted for the stored platform.
   */
  function InitPlan(platforms: Table<Platform>, channels: Table<Channel>,
                    platformName: string, chatName: string, chatId: int, description: string): (s: Setup)
    requires PlatformsValid(platforms) && ChannelsValid(channels)
    ensures PlatformsValid(s.platforms) && ChannelsValid(s.channels)
  {
    var platformId := PlatformKey(platforms, PyStr(platformName));
    if platformId == BAD_ID then
      var p := Platform(PyStr(platformName));
      var (ps, newId) := Inserted(platforms, PlatformAccepted(platforms, p), p);
      var c := ChannelFor(newId, chatName, chatId, description);
      var (cs, channelId) := Inserted(channels, ChannelAccepted(channels, c), c);
      if PlatformAccepted(platforms, p) then AppendKeepsInvariant(platforms, PlatformConflict, p);
        if ChannelAccepted(channels, c) then AppendKeepsInvariant(channels, ChannelConflict, c); Setup(ps, cs, newId, p, channelId, c)
        else Setup(ps, cs, newId, p, channelId, c)
      else if ChannelAccepted(channels, c) then AppendKeepsInvariant(channels, ChannelConflict, c); Setup(ps, cs, newId, p, channelId, c)
      else Setup(ps, cs, newId, p, channelId, c)
    else
      var p := Get(platforms, platformId).value;
      var channelId := ChannelKey(channels, PyInt(platformId), PyInt(chatId));
      if channelId == BAD_ID then
        var c := ChannelFor(platformId, chatName, chatId, description);
        var (cs, newId) := Inserted(channels, ChannelAccepted(channels, c), c);
        if ChannelAccepted(channels, c) then AppendKeepsInvariant(channels, ChannelConflict, c); Setup(platforms, cs, platformId, p, newId, c)
        else Setup(platforms, cs, platformId, p, newId, c)
      else Setup(platforms, channels, platformId, p, channelId, Get(channels, channelId).value)
  }

  /**
   * The evident intent of `init_animestele`: afterwards the platform is
   * stored under the returned id, and the channel is stored under the
   * returned id and found by `(platform_id, chat_id)`, unless a stored
   * channel row clashes with it on one of the table's UNIQUE constraints,
   * the one reason its insert is refused. Rows are only added, never changed.
   */
  lemma InitPlanSetsUp(platforms: Table<Platform>, channels: Table<Channel>,
                       platformName: string, chatName: string, chatId: int, description: string)
    requires PlatformsValid(platforms) && ChannelsValid(channels)
    ensures var s := InitPlan(platforms, channels, platformName, chatName, chatId, description);
      && s.platformId != BAD_ID && PlatformKey(s.platforms, PyStr(platformName)) == s.platformId
      && s.platforms.rows[s.platformId] == s.platform
      && Extends(platforms, s.platforms) && Extends(channels, s.channels)
      && (s.channelId != BAD_ID ==>
          (s.channelId in s.channels.rows && s.channels.rows[s.channelId] == s.channel
           && ChannelKey(s.channels, PyInt(s.platformId), PyInt(chatId)) == s.channelId))
      && (s.channelId == BAD_ID ==>
          (s.channels == channels && exists k | k in channels.rows :: ChannelConflict(channels.rows[k], s.channel)))
  {
    var platformId := PlatformKey(platforms, PyStr(platformName));
    if platformId == BAD_ID {
      var p := Platform(PyStr(platformName));
      assert PlatformAccepted(platforms, p);
      PlatformInsertThenLookup(platforms, p);
      AppendExtends(platforms, p);
      InitChannelStep(channels, ChannelFor(platforms.nextId, chatName, chatId, description));
    } else if ChannelKey(channels, PyInt(platformId), PyInt(chatId)) == BAD_ID {
      InitChannelStep(channels, ChannelFor(platformId, chatName, chatId, description));
    }
  }

  /** The channel insert of `init_animestele`: stored and found by `(platform_id, chat_id)`, or refused for a clashing row. */
  lemma InitChannelStep(channels: Table<Channel>, c: Channel)
    requires ChannelsValid(channels) && c.platformId.PyInt? && c.chatId.PyInt? && c.chatName.PyStr?
    ensures var (cs, id) := Inserted(channels, ChannelAccepted(channels, c), c);
      && Extends(channels, cs)
      && (id != BAD_ID ==> (id in cs.rows && cs.rows[id] == c && ChannelKey(cs, c.platformId, c.chatId) == id))
      && (id == BAD_ID ==> (cs == channels && exists k | k in channels.rows :: ChannelConflict(channels.rows[k], c)))
  {
    if ChannelAccepted(channels, c) {
      ChannelInsertThenLookup(channels, c);
      AppendExtends(channels, c);
    } else {
      var k :| k in channels.rows && (ChannelConflict(channels.rows[k], c) || ChannelConflict(c, channels.rows[k]));
      assert ChannelConflict(channels.rows[k], c);
    }
  }

  /** Once set up, a second `init_animestele` with the same arguments changes nothing and returns the same rows and ids. */
  lemma InitPlanIdempotent(platforms: Table<Platform>, channels: Table<Channel>,
                           platformName: string, chatName: string, chatId: int, description: string)
    requires PlatformsValid(platforms) && ChannelsValid(channels)
    requires InitPlan(platforms, channels, platformName, chatName, chatId, description).channelId != BAD_ID
    ensures var s := InitPlan(platforms, channels, platformName, chatName, chatId, description);
      InitPlan(s.platforms, s.channels, platformName, chatName, chatId, description) == s
  {
    InitPlanSetsUp(platforms, channels, platformName, chatName, chatId, description);
  }

  /**
   * `init_animestele` as written: both absence tests are `is None`, which a
   * lookup never returns (it returns BAD_ID), so nothing is ever inserted;
   * the last branch then calls `get_by_id(platform_id)`, which raises
   * TypeError for a stored platform and, for the BAD_ID of an absent one,
   * AttributeError at the undefined `values.NOT_FOUND`. It never returns.
   */
  function InitAnimesteleAsWritten(platforms: SQLitePlatforms, channels: SQLiteChannels, platformName: string, chatId: int)
    : (r: Result<(Platform, Channel), PyError>)
    reads platforms, channels
    requires platforms.Valid() && channels.Valid()
    ensures PlatformKey(platforms.table, PyStr(platformName)) != BAD_ID ==> r == Err(TypeError)
    ensures PlatformKey(platforms.table, PyStr(platformName)) == BAD_ID ==> r == Err(AttributeError)
  {
    var platformId := platforms.GetPrimaryKey(PyStr(platformName));
    // the written `get_by_id(platform_id)` always raises, so the channel is never read
    Err(platforms.GetByIdAsWritten(platformId).error)
  }

  /**
   * On a store without the telegram platform, the written `init_animestele`
   * inserts nothing and raises AttributeError, while the intended one leaves
   * the platform and its channel stored.
   */
  lemma InitAnimesteleAsWrittenCreatesNothing(platforms: SQLitePlatforms, channels: SQLiteChannels)
    requires platforms.Valid() && channels.Valid()
    requires PlatformKey(platforms.table, PyStr(TELEGRAM_NAME)) == BAD_ID
    requires forall k | k in channels.table.rows :: !Clash(channels.table.rows[k].platformId, PyInt(platforms.table.nextId))
    ensures InitAnimesteleAsWritten(platforms, channels, TELEGRAM_NAME, ANIMESTELE_ID) == Err(AttributeError)
    ensures var s := InitPlan(platforms.table, channels.table, TELEGRAM_NAME, ANIMESTELE_NAME, ANIMESTELE_ID, ANIMESTELE_DESCRIPTION);
      PlatformKey(s.platforms, PyStr(TELEGRAM_NAME)) != BAD_ID && s.channelId != BAD_ID
      && ChannelKey(s.channels, PyInt(s.platformId), PyInt(ANIMESTELE_ID)) == s.channelId
  {
    var s := InitPlan(platforms.table, channels.table, TELEGRAM_NAME, ANIMESTELE_NAME, ANIMESTELE_ID, ANIMESTELE_DESCRIPTION);
    InitPlanSetsUp(platforms.table, channels.table, TELEGRAM_NAME, ANIMESTELE_NAME, ANIMESTELE_ID, ANIMESTELE_DESCRIPTION);
    PlatformInsertThenLookup(platforms.table, Platform(PyStr(TELEGRAM_NAME)));
    assert s.platformId == platforms.table.nextId;
  }

  /** `init_animestele` on the database, as it was evidently meant. */
  method InitAnimestele(db: SQLiteDatabaseManager, platformName: string := TELEGRAM_NAME, chatName: string := ANIMESTELE_NAME,
                        chatId: int := ANIMESTELE_ID, description: string := ANIMESTELE_DESCRIPTION)
    returns (platformId: int, platform: Platform, channelId: int, channel: Channel)
    requires db.Valid()
    modifies db.platforms, db.channels
    ensures db.Valid()
    ensures Setup(db.platforms.table, db.channels.table, platformId, platform, channelId, channel)
      == InitPlan(old(db.platforms.table), old(db.channels.table), platformName, chatName, chatId, description)
  {
    platformId := db.platforms.GetPrimaryKey(PyStr(platformName));
    if platformId == BAD_ID {
      platform := Platform(PyStr(platformName));
      platformId := db.platforms.InsertData(platform);
      channel := Channel(PyInt(platformId), PyStr(chatName), PyInt(chatId), PyStr(description));
      channelId := db.channels.InsertData(channel);
    } else {
      platform := db.platforms.GetById(platformId).value;
      channelId := db.channels.GetPrimaryKey(PyInt(platformId), PyInt(chatId));
      if channelId == BAD_ID {
        channel := Channel(PyInt(platformId), PyStr(chatName), PyInt(chatId), PyStr(description));
        channelId := db.channels.InsertData(channel);
      } else {
        channel := db.channels.GetById(channelId).value;
      }
    }
  }
}
