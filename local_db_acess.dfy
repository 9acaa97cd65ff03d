/**
 * The older ingestion of `local/db_sqlite3_acess.py` into the local database:
 * every metadata dict is handed to `insert_anime` with no existence check;
 * the merged episode candidates are grouped by episode number in a dict,
 * the groups are visited in ascending episode-number order, and a candidate
 * is inserted only when no episode with its `(mal_id, episode_number)` is
 * stored yet.
 */
module LocalAccess {
  import opened Wrappers
  import opened PyValues
  import opened Tables
  import opened DbStructs
  import opened DataCollect
  import opened LocalDatabase
  import opened DbAccess

  // ---------------------------------------------------------------- grouping by episode number

  /** The dict key of a candidate: Python dict keys compare with `==`, under which `True` is `1`. */
  function Key(m: Merged): SqlValue {
    Stored(m.episodeNumber)
  }

  /** `combined_links`: its keys in insertion order, and the list under each key. */
  datatype Groups = Groups(keys: seq<SqlValue>, lists: map<SqlValue, seq<Merged>>)

  /** Lines 55-63 for one candidate: `setdefault(key, [])`, then append. */
  function AddToGroup(g: Groups, m: Merged): Groups {
    if Key(m) in g.lists then Groups(g.keys, g.lists[Key(m) := g.lists[Key(m)] + [m]])
    else Groups(g.keys + [Key(m)], g.lists[Key(m) := [m]])
  }

  /** The dict after the candidates `cs`, in visiting order. */
  function GroupAll(cs: seq<Merged>): Groups {
    if cs == [] then Groups([], map[]) else AddToGroup(GroupAll(cs[..|cs| - 1]), cs[|cs| - 1])
  }

  /** The candidates of `cs` whose key is `k`, in their order in `cs`. */
  function WithKey(cs: seq<Merged>, k: SqlValue): (r: seq<Merged>)
    ensures forall i | 0 <= i < |r| :: Key(r[i]) == k
  {
    if cs == [] then []
    else WithKey(cs[..|cs| - 1], k) + (if Key(cs[|cs| - 1]) == k then [cs[|cs| - 1]] else [])
  }

  predicate Distinct<T(==)>(s: seq<T>) {
    forall i, j | 0 <= i < j < |s| :: s[i] != s[j]
  }

  /**
   * The dict holds, under each key that some candidate has, exactly the
   * candidates with that key in their original order; its keys are those
   * keys, each once.
   */
  lemma {:induction false} GroupAllMeaning(cs: seq<Merged>)
    ensures var g := GroupAll(cs);
      && Distinct(g.keys) && (forall k :: k in g.keys <==> k in g.lists)
      && (forall k | k in g.lists :: g.lists[k] == WithKey(cs, k))
      && (forall k | k !in g.lists :: WithKey(cs, k) == [])
  {
    if cs != [] {
      var front := cs[..|cs| - 1];
      GroupAllMeaning(front);
      var g := GroupAll(front);
      var m := cs[|cs| - 1];
      forall k
        ensures WithKey(cs, k) == WithKey(front, k) + (if Key(m) == k then [m] else [])
      {
      }
      if Key(m) !in g.lists {
        forall i, j | 0 <= i < j < |g.keys + [Key(m)]|
          ensures (g.keys + [Key(m)])[i] != (g.keys + [Key(m)])[j]
        {
          if j < |g.keys| {
            assert (g.keys + [Key(m)])[i] == g.keys[i] && (g.keys + [Key(m)])[j] == g.keys[j];
          }
        }
      }
    }
  }

  lemma {:induction false} WithKeyConcat(a: seq<Merged>, b: seq<Merged>, k: SqlValue)
    ensures WithKey(a + b, k) == WithKey(a, k) + WithKey(b, k)
    decreases |b|
  {
    if b != [] {
      ConcatFront(a, b);
      WithKeyConcat(a, b[..|b| - 1], k);
      var tail := if Key(b[|b| - 1]) == k then [b[|b| - 1]] else [];
      assert WithKey(a, k) + WithKey(b[..|b| - 1], k) + tail == WithKey(a, k) + (WithKey(b[..|b| - 1], k) + tail);
    } else {
      assert a + b == a;
    }
  }

  lemma ConcatFront<T>(a: seq<T>, b: seq<T>)
    requires b != []
    ensures (a + b)[..|a + b| - 1] == a + b[..|b| - 1] && (a + b)[|a + b| - 1] == b[|b| - 1]
  {
  }

  lemma {:induction false} WithKeyUniform(s: seq<Merged>, k: SqlValue)
    requires forall i | 0 <= i < |s| :: Key(s[i]) == Key(s[0])
    ensures WithKey(s, k) == if s != [] && Key(s[0]) == k then s else []
  {
    if s != [] {
      var front, last := s[..|s| - 1], s[|s| - 1];
      assert WithKey(s, k) == WithKey(front, k) + (if Key(last) == k then [last] else []);
      if front != [] {
        assert forall i | 0 <= i < |front| :: Key(front[i]) == Key(front[0]) by {
          assert front[0] == s[0];
        }
        WithKeyUniform(front, k);
      }
      if Key(s[0]) == k {
        assert front + [last] == s;
      }
    }
  }

  // ---------------------------------------------------------------- sorted(combined_links.items())

  /** `sorted` can order the keys: at most one, or all integers (bools among them), or all strings. */
  predicate Sortable(keys: seq<SqlValue>) {
    |keys| <= 1 || (forall i | 0 <= i < |keys| :: keys[i].SqlInteger?) || (forall i | 0 <= i < |keys| :: keys[i].SqlText?)
  }

  /** Strictly ascending in Python's order, which on integers and on strings is SQLite's. */
  predicate Ascending(s: seq<SqlValue>) {
    forall i, j | 0 <= i < j < |s| :: SqlLess(s[i], s[j])
  }

  function InsertKey(x: SqlValue, s: seq<SqlValue>): (r: seq<SqlValue>)
    ensures multiset(r) == multiset(s) + multiset{x}
  {
    if s == [] then [x]
    else if SqlLess(x, s[0]) then [x] + s
    else assert s == [s[0]] + s[1..]; [s[0]] + InsertKey(x, s[1..])
  }

  /** The keys in ascending order. */
  function SortKeys(keys: seq<SqlValue>): (r: seq<SqlValue>)
    ensures multiset(r) == multiset(keys)
  {
    if keys == [] then [] else assert keys == [keys[0]] + keys[1..]; InsertKey(keys[0], SortKeys(keys[1..]))
  }

  lemma {:induction false} InsertKeyAscending(x: SqlValue, s: seq<SqlValue>)
    requires Ascending(s) && x !in s
    ensures Ascending(InsertKey(x, s))
  {
    var r := InsertKey(x, s);
    if s != [] && !SqlLess(x, s[0]) {
      SqlLessIsStrictTotalOrder(x, s[0], x);
      assert SqlLess(s[0], x);
      var rest := InsertKey(x, s[1..]);
      InsertKeyAscending(x, s[1..]);
      forall j | 0 <= j < |rest|
        ensures SqlLess(s[0], rest[j])
      {
        assert rest[j] in multiset(rest);
        if rest[j] != x {
          var k :| 1 <= k < |s| && s[k] == rest[j];
        }
      }
    } else if s != [] {
      forall j | 0 <= j < |s|
        ensures SqlLess(x, s[j])
      {
        if j > 0 {
          SqlLessIsStrictTotalOrder(x, s[0], s[j]);
        }
      }
    }
  }

  /** `sorted(keys)` for distinct keys: strictly ascending, and the same keys. */
  lemma {:induction false} SortKeysMeaning(keys: seq<SqlValue>)
    requires Distinct(keys)
    ensures Ascending(SortKeys(keys)) && |SortKeys(keys)| == |keys|
    ensures forall k :: k in SortKeys(keys) <==> k in keys
  {
    var r := SortKeys(keys);
    assert forall k :: k in r <==> k in multiset(r);
    assert forall k :: k in keys <==> k in multiset(keys);
    if keys != [] {
      assert Distinct(keys[1..]);
      SortKeysMeaning(keys[1..]);
      assert keys[0] !in keys[1..];
      InsertKeyAscending(keys[0], SortKeys(keys[1..]));
    }
  }

  // ---------------------------------------------------------------- the visiting order of lines 73-74

  /** Every key of `ks` has a list in the dict. */
  predicate Listed(g: Groups, ks: seq<SqlValue>) {
    forall i | 0 <= i < |ks| :: ks[i] in g.lists
  }

  /** The groups of the keys `ks`, one after the other. */
  function Flatten(g: Groups, ks: seq<SqlValue>): seq<Merged>
    requires Listed(g, ks)
  {
    if ks == [] then [] else Flatten(g, ks[..|ks| - 1]) + g.lists[ks[|ks| - 1]]
  }

  /** Every list of the dict holds only candidates with its key. */
  predicate Uniform(g: Groups) {
    forall k | k in g.lists :: forall i | 0 <= i < |g.lists[k]| :: Key(g.lists[k][i]) == k
  }

  lemma {:induction false} FlattenWithKey(g: Groups, ks: seq<SqlValue>, k: SqlValue)
    requires Listed(g, ks)
    requires Distinct(ks) && Uniform(g)
    ensures WithKey(Flatten(g, ks), k) == if k in ks then g.lists[k] else []
  {
    if ks != [] {
      var front := ks[..|ks| - 1];
      var last := ks[|ks| - 1];
      var l := g.lists[last];
      assert ks == front + [last];
      assert forall i | 0 <= i < |front| :: front[i] == ks[i];
      assert Listed(g, front) && Distinct(front);
      assert Flatten(g, ks) == Flatten(g, front) + l;
      FlattenWithKey(g, front, k);
      WithKeyConcat(Flatten(g, front), l, k);
      assert forall i | 0 <= i < |l| :: Key(l[i]) == last;
      if l != [] {
        WithKeyUniform(l, k);
      }
      if k == last {
        assert k !in front;
        assert WithKey(l, k) == l;
      } else {
        assert WithKey(l, k) == [];
        assert k in ks <==> k in front;
      }
    }
  }

  lemma {:induction false} FlattenAscending(g: Groups, ks: seq<SqlValue>)
    requires Listed(g, ks)
    requires Ascending(ks) && Uniform(g)
    ensures forall i | 0 <= i < |Flatten(g, ks)| :: Key(Flatten(g, ks)[i]) in ks
    ensures forall i, j | 0 <= i < j < |Flatten(g, ks)| ::
      Key(Flatten(g, ks)[i]) == Key(Flatten(g, ks)[j]) || SqlLess(Key(Flatten(g, ks)[i]), Key(Flatten(g, ks)[j]))
  {
    if ks != [] {
      var front := ks[..|ks| - 1];
      var last := ks[|ks| - 1];
      FlattenAscending(g, front);
      var f := Flatten(g, front);
      var o := Flatten(g, ks);
      assert o == f + g.lists[last];
      forall i | 0 <= i < |o|
        ensures Key(o[i]) in ks
      {
        if i < |f| {
          assert o[i] == f[i];
        } else {
          assert o[i] == g.lists[last][i - |f|];
        }
      }
      forall i, j | 0 <= i < j < |o|
        ensures Key(o[i]) == Key(o[j]) || SqlLess(Key(o[i]), Key(o[j]))
      {
        if j < |f| {
          assert o[i] == f[i] && o[j] == f[j];
        } else if i < |f| {
          assert o[i] == f[i] && o[j] == g.lists[last][j - |f|];
          var a :| 0 <= a < |front| && front[a] == Key(f[i]);
          assert SqlLess(ks[a], ks[|ks| - 1]);
        } else {
          assert o[i] == g.lists[last][i - |f|] && o[j] == g.lists[last][j - |f|];
        }
      }
    }
  }

  /** `sorted(combined_links.items())` flattened: the order in which lines 73-74 visit the candidates. */
  function VisitOrder(cs: seq<Merged>): seq<Merged> {
    GroupAllMeaning(cs);
    SortKeysMeaning(GroupAll(cs).keys);
    Flatten(GroupAll(cs), SortKeys(GroupAll(cs).keys))
  }

  lemma GroupAllUniform(cs: seq<Merged>)
    ensures Uniform(GroupAll(cs))
  {
    GroupAllMeaning(cs);
  }

  /** GroupAllMeaning at the one key `k`. */
  lemma GroupAllAt(cs: seq<Merged>, k: SqlValue)
    ensures var g := GroupAll(cs);
      && (k in g.keys <==> k in g.lists)
      && (k in g.lists ==> g.lists[k] == WithKey(cs, k))
      && (k !in g.lists ==> WithKey(cs, k) == [])
  {
    GroupAllMeaning(cs);
  }

  lemma GroupAllShape(cs: seq<Merged>)
    ensures var g := GroupAll(cs);
      Distinct(g.keys) && Uniform(g) && forall k | k in g.keys :: k in g.lists
  {
    GroupAllMeaning(cs);
  }

  lemma AscendingDistinct(s: seq<SqlValue>)
    requires Ascending(s)
    ensures Distinct(s)
  {
    forall i, j | 0 <= i < j < |s|
      ensures s[i] != s[j]
    {
      SqlLessIsStrictTotalOrder(s[i], s[j], s[j]);
    }
  }

  lemma VisitOrderWithKey(cs: seq<Merged>, k: SqlValue)
    ensures WithKey(VisitOrder(cs), k) == WithKey(cs, k)
  {
    var g := GroupAll(cs);
    GroupAllShape(cs);
    var ks := SortKeys(g.keys);
    SortKeysMeaning(g.keys);
    AscendingDistinct(ks);
    assert VisitOrder(cs) == Flatten(g, ks);
    FlattenWithKey(g, ks, k);
    GroupAllAt(cs, k);
  }

  lemma VisitOrderAscending(cs: seq<Merged>)
    ensures forall i, j | 0 <= i < j < |VisitOrder(cs)| ::
      Key(VisitOrder(cs)[i]) == Key(VisitOrder(cs)[j]) || SqlLess(Key(VisitOrder(cs)[i]), Key(VisitOrder(cs)[j]))
  {
    var g := GroupAll(cs);
    GroupAllMeaning(cs);
    GroupAllUniform(cs);
    SortKeysMeaning(g.keys);
    FlattenAscending(g, SortKeys(g.keys));
  }

  /**
   * Candidates are visited by ascending episode number across all animes,
   * and the candidates with one episode number keep their original order
   * (anime order, then position): the visiting order is a stable sort of
   * the candidates by episode number.
   */
  lemma VisitOrderMeaning(cs: seq<Merged>)
    ensures forall k :: WithKey(VisitOrder(cs), k) == WithKey(cs, k)
    ensures forall i, j | 0 <= i < j < |VisitOrder(cs)| ::
      Key(VisitOrder(cs)[i]) == Key(VisitOrder(cs)[j]) || SqlLess(Key(VisitOrder(cs)[i]), Key(VisitOrder(cs)[j]))
  {
    forall k
      ensures WithKey(VisitOrder(cs), k) == WithKey(cs, k)
    {
      VisitOrderWithKey(cs, k);
    }
    VisitOrderAscending(cs);
  }

  // ---------------------------------------------------------------- merging into combined_links

  /** The loop of lines 46-63: the dict of merged candidates, or the AssertionError of line 52. */
  function GroupedLinks(ws: seq<seq<WatchRecord>>, ds: seq<seq<DownloadRecord>>): Result<Groups, PyError> {
    match Combined(ws, ds)
    case Err(e) => Err(e)
    case Ok(cs) => Ok(GroupAll(cs))
  }

  lemma GroupStep(before: seq<(WatchRecord, DownloadRecord)>, p: (WatchRecord, DownloadRecord))
    ensures GroupAll(MergeAll(before + [p])) == AddToGroup(GroupAll(MergeAll(before)), MergePair(p))
  {
    var cs := MergeAll(before + [p]);
    assert cs == MergeAll(before) + [MergePair(p)];
    assert cs[..|cs| - 1] == MergeAll(before);
  }

  lemma FileStep(done: seq<(WatchRecord, DownloadRecord)>, zipped: seq<(WatchRecord, DownloadRecord)>, j: nat)
    requires j < |zipped| && Agree(done + zipped[..j]) && Agree(zipped[..j]) && SameOrdinal(zipped[j])
    ensures Agree(done + zipped[..j + 1]) && Agree(zipped[..j + 1])
    ensures GroupAll(MergeAll(done + zipped[..j + 1]))
         == AddToGroup(GroupAll(MergeAll(done + zipped[..j])), MergePair(zipped[j]))
  {
    MergeStep(done, zipped, j);
    GroupStep(done + zipped[..j], zipped[j]);
    assert done + zipped[..j + 1] == (done + zipped[..j]) + [zipped[j]];
    assert zipped[..j + 1] == zipped[..j] + [zipped[j]];
  }

  /** `setdefault(key, [])` followed by `append` files the candidate as AddToGroup does. */
  lemma SetdefaultAppend(g: Groups, m: Merged)
    ensures var g1 := if Key(m) !in g.lists then Groups(g.keys + [Key(m)], g.lists[Key(m) := []]) else g;
      g1.(lists := g1.lists[Key(m) := g1.lists[Key(m)] + [m]]) == AddToGroup(g, m)
  {
    if Key(m) !in g.lists {
      assert [] + [m] == [m];
    }
  }

  /**
   * The inner loop of lines 48-63 for one anime: files each merged pair of
   * `watchList` and `downloadList` into the dict, or stops at the first
   * pair whose ordinals differ.
   */
  method GroupAnime(combined0: Groups, watchList: seq<WatchRecord>, downloadList: seq<DownloadRecord>,
                    ghost done: seq<(WatchRecord, DownloadRecord)>) returns (r: Result<Groups, PyError>)
    requires Agree(done) && combined0 == GroupAll(MergeAll(done))
    ensures r.Ok? <==> Agree(Zip(watchList, downloadList))
    ensures r.Ok? ==> Agree(done + Zip(watchList, downloadList))
    ensures r.Ok? ==> r.value == GroupAll(MergeAll(done + Zip(watchList, downloadList)))
    ensures r.Err? ==> r.error == AssertionError
  {
    ghost var zipped := Zip(watchList, downloadList);
    var combined := combined0;
    var j := 0;
    assert done + zipped[..0] == done;
    while j < |watchList| && j < |downloadList|
      invariant j <= |watchList| && j <= |downloadList| && j <= |zipped|
      invariant Agree(done + zipped[..j]) && Agree(zipped[..j])
      invariant combined == GroupAll(MergeAll(done + zipped[..j]))
    {
      var watch, download := watchList[j], downloadList[j];
      assert zipped[j] == (watch, download);
      if !PyEq(watch.ep, download.episode) {
        return Err(AssertionError);
      }
      ghost var before := combined;
      FileStep(done, zipped, j);
      var episodeNumber := Stored(watch.ep);
      if episodeNumber !in combined.lists {
        combined := Groups(combined.keys + [episodeNumber], combined.lists[episodeNumber := []]);
      }
      var m := Merged(watch.malId, watch.ep, watch.watchLink, download.hd, download.sd, download.temp);
      combined := combined.(lists := combined.lists[episodeNumber := combined.lists[episodeNumber] + [m]]);
      assert m == MergePair(zipped[j]) && episodeNumber == Key(m);
      SetdefaultAppend(before, m);
      assert combined == AddToGroup(before, m);
      j := j + 1;
    }
    assert zipped[..j] == zipped;
    return Ok(combined);
  }

  /** Lines 46-63: the outer `zip` loop over the animes' watch and download lists. */
  method GroupLinks(ws: seq<seq<WatchRecord>>, ds: seq<seq<DownloadRecord>>) returns (r: Result<Groups, PyError>)
    ensures r == GroupedLinks(ws, ds)
  {
    var combined := Groups([], map[]);
    var n := 0;
    while n < |ws| && n < |ds|
      invariant n <= |ws| && n <= |ds|
      invariant Agree(PairsUpTo(ws, ds, n))
      invariant combined == GroupAll(MergeAll(PairsUpTo(ws, ds, n)))
    {
      var filed := GroupAnime(combined, ws[n], ds[n], PairsUpTo(ws, ds, n));
      if filed.Err? {
        ghost var zipped := Zip(ws[n], ds[n]);
        ghost var j :| 0 <= j < |zipped| && !SameOrdinal(zipped[j]);
        MismatchFails(ws, ds, n, j);
        return filed;
      }
      combined := filed.value;
      n := n + 1;
    }
    return Ok(combined);
  }

  // ---------------------------------------------------------------- the anime loop of lines 24-44

  /**
   * Lines 26-43: `Anime(mal_id=anime_data['mal_id'], ...)` reads the sixteen
   * keys one by one; a missing key raises KeyError, keys beyond them are ignored.
   */
  function MetadataAnime(d: Dict): (r: Result<Anime, PyError>)
    ensures r.Ok? <==> AnimeParams <= d.Keys
    ensures r.Err? ==> r.error == KeyError
  {
    if AnimeParams <= d.Keys then
      Ok(Anime(d["mal_id"], d["title"], d["title_english"], d["title_japanese"], d["type"],
               d["episodes"], d["status"], d["airing"], d["aired"], d["rating"], d["duration"],
               d["season"], d["year"], d["studios"], d["producers"], d["synopsis"]))
    else Err(KeyError)
  }

  /** Each of the anime's sixteen attributes is the dict's value under that key. */
  lemma MetadataAnimeReads(d: Dict, k: string)
    requires AnimeParams <= d.Keys && k in AnimeParams
    ensures AnimeToDict(MetadataAnime(d).value)[k] == d[k]
  {
  }

  /**
   * The row the corrected `insert_anime` call stores: the entry carries
   * `added_to = "#none"`, the marker the bot reads as "not yet posted"
   * (shared_components/api/bot_api/animestele_bot.py line 149). As written
   * the entry has no `added_to` at all; see LocalAnimeStepAsWritten.
   */
  function LocalAnimeRow(a: Anime): AnimeRow {
    AnimeRow(a, PyStr("#none"))
  }

  /** Where the anime loop has got to: the table, and the KeyError that stopped it. */
  datatype AnimePhase = AnimePhase(table: Table<AnimeRow>, failure: Option<PyError>)

  /** One iteration: build the anime and hand it to `insert_anime`, which drops a rejected row. */
  function LocalAnimeStep(prev: AnimePhase, d: Dict): (r: AnimePhase)
    requires AnimesOk(prev.table)
    ensures AnimesOk(r.table)
  {
    if prev.failure.Some? then prev
    else match MetadataAnime(d)
      case Err(e) => AnimePhase(prev.table, Some(e))
      case Ok(a) =>
        if AnimeRowAccepted(prev.table, LocalAnimeRow(a)) then
          AppendKeepsInvariant(prev.table, AnimeRowConflict, LocalAnimeRow(a));
          AnimePhase(Append(prev.table, LocalAnimeRow(a)), None)
        else prev
  }

  function LocalAnimesPass(t: Table<AnimeRow>, metas: seq<Dict>): (r: AnimePhase)
    requires AnimesOk(t)
    ensures AnimesOk(r.table)
  {
    if metas == [] then AnimePhase(t, None)
    else LocalAnimeStep(LocalAnimesPass(t, metas[..|metas| - 1]), metas[|metas| - 1])
  }

  /**
   * One iteration as written: the `Anime` built at lines 26-43 has no
   * `added_to` attribute, so `insert_anime` raises AttributeError when it
   * reads `anime.added_to` (local/db_sqlite3.py line 73, where only
   * IntegrityError is caught) before anything is stored.
   */
  function LocalAnimeStepAsWritten(prev: AnimePhase, d: Dict): (r: AnimePhase)
    ensures r.table == prev.table && r.failure.Some?
    ensures prev.failure.None? ==> r.failure == Some(if AnimeParams <= d.Keys then AttributeError else KeyError)
  {
    if prev.failure.Some? then prev
    else match MetadataAnime(d)
      case Err(e) => AnimePhase(prev.table, Some(e))
      case Ok(_) => AnimePhase(prev.table, Some(AttributeError))
  }

  /** The anime loop as written: the first dict stops it, with KeyError or AttributeError, and nothing is stored. */
  function LocalAnimesPassAsWritten(t: Table<AnimeRow>, metas: seq<Dict>): (r: AnimePhase)
    ensures r.table == t
    ensures r.failure.None? <==> metas == []
    ensures metas != [] ==> r.failure == Some(if AnimeParams <= metas[0].Keys then AttributeError else KeyError)
  {
    if metas == [] then AnimePhase(t, None)
    else LocalAnimeStepAsWritten(LocalAnimesPassAsWritten(t, metas[..|metas| - 1]), metas[|metas| - 1])
  }

  /** The check-then-insert iteration of the shared store's ingestion, run on the local table. */
  function CheckedAnimeStep(prev: AnimePhase, d: Dict): (r: AnimePhase)
    requires AnimesOk(prev.table)
    ensures AnimesOk(r.table)
  {
    if prev.failure.Some? then prev
    else match MetadataAnime(d)
      case Err(e) => AnimePhase(prev.table, Some(e))
      case Ok(a) =>
        if AnimeIdFor(prev.table, a.malId) != BAD_ID then prev
        else if AnimeRowAccepted(prev.table, LocalAnimeRow(a)) then
          AppendKeepsInvariant(prev.table, AnimeRowConflict, LocalAnimeRow(a));
          AnimePhase(Append(prev.table, LocalAnimeRow(a)), None)
        else prev
  }

  function CheckedAnimesPass(t: Table<AnimeRow>, metas: seq<Dict>): (r: AnimePhase)
    requires AnimesOk(t)
    ensures AnimesOk(r.table)
  {
    if metas == [] then AnimePhase(t, None)
    else CheckedAnimeStep(CheckedAnimesPass(t, metas[..|metas| - 1]), metas[|metas| - 1])
  }

  lemma CheckedAnimeStepSame(prev: AnimePhase, d: Dict)
    requires AnimesOk(prev.table)
    ensures CheckedAnimeStep(prev, d) == LocalAnimeStep(prev, d)
  {
    if prev.failure.None? && MetadataAnime(d).Ok? {
      var a := MetadataAnime(d).value;
      var id := AnimeIdFor(prev.table, a.malId);
      if id != BAD_ID {
        assert AnimeRowConflict(prev.table.rows[id], LocalAnimeRow(a));
      }
    }
  }

  /**
   * Leaving out the existence check changes nothing: the UNIQUE constraint
   * on `mal_id` refuses every anime the check would have skipped.
   */
  lemma {:induction false} PrecheckRedundant(t: Table<AnimeRow>, metas: seq<Dict>)
    requires AnimesOk(t)
    ensures LocalAnimesPass(t, metas) == CheckedAnimesPass(t, metas)
  {
    if metas != [] {
      PrecheckRedundant(t, metas[..|metas| - 1]);
      CheckedAnimeStepSame(LocalAnimesPass(t, metas[..|metas| - 1]), metas[|metas| - 1]);
    }
  }

  /** A row the table refuses stays refused once more rows are added. */
  lemma AnimeRefusedGrows(t: Table<AnimeRow>, t': Table<AnimeRow>, r: AnimeRow)
    requires Extends(t, t') && !AnimeRowAccepted(t, r)
    ensures !AnimeRowAccepted(t', r)
  {
    if SqliteStore.AnimeRowOk(r.anime) {
      var i :| i in t.rows && (AnimeRowConflict(t.rows[i], r) || AnimeRowConflict(r, t.rows[i]));
      assert i in t'.rows && t'.rows[i] == t.rows[i];
    }
  }

  /** The dict's anime, if it has one, is one the table refuses: inserting it again changes nothing. */
  ghost predicate AnimeSettled(t: Table<AnimeRow>, d: Dict) {
    MetadataAnime(d).Ok? && !AnimeRowAccepted(t, LocalAnimeRow(MetadataAnime(d).value))
  }

  lemma LocalAnimeStepSettles(prev: AnimePhase, d: Dict)
    requires AnimesOk(prev.table) && LocalAnimeStep(prev, d).failure.None?
    ensures prev.failure.None? && Extends(prev.table, LocalAnimeStep(prev, d).table)
    ensures AnimeSettled(LocalAnimeStep(prev, d).table, d)
  {
    var r := LocalAnimeStep(prev, d);
    var a := MetadataAnime(d).value;
    if AnimeRowAccepted(prev.table, LocalAnimeRow(a)) {
      AppendKeepsInvariant(prev.table, AnimeRowConflict, LocalAnimeRow(a));
      assert r.table.rows[prev.table.nextId] == LocalAnimeRow(a);
      assert AnimeRowConflict(r.table.rows[prev.table.nextId], LocalAnimeRow(a));
    }
  }

  /** After a pass that raised nothing, every dict's anime is one the table refuses. */
  lemma {:induction false} LocalAnimesPassSettles(t: Table<AnimeRow>, metas: seq<Dict>)
    requires AnimesOk(t) && LocalAnimesPass(t, metas).failure.None?
    ensures Extends(t, LocalAnimesPass(t, metas).table)
    ensures forall i | 0 <= i < |metas| :: AnimeSettled(LocalAnimesPass(t, metas).table, metas[i])
  {
    if metas != [] {
      var front := metas[..|metas| - 1];
      var prev := LocalAnimesPass(t, front);
      var r := LocalAnimesPass(t, metas);
      assert r == LocalAnimeStep(prev, metas[|metas| - 1]);
      LocalAnimeStepSettles(prev, metas[|metas| - 1]);
      LocalAnimesPassSettles(t, front);
      forall i | 0 <= i < |metas| - 1
        ensures AnimeSettled(r.table, metas[i])
      {
        assert metas[i] == front[i];
        AnimeRefusedGrows(prev.table, r.table, LocalAnimeRow(MetadataAnime(metas[i]).value));
      }
    }
  }

  /** When every dict's anime is refused, the loop changes nothing and raises nothing. */
  lemma {:induction false} LocalAnimesPassStable(t: Table<AnimeRow>, metas: seq<Dict>)
    requires AnimesOk(t)
    requires forall i | 0 <= i < |metas| :: AnimeSettled(t, metas[i])
    ensures LocalAnimesPass(t, metas) == AnimePhase(t, None)
  {
    if metas != [] {
      var front := metas[..|metas| - 1];
      assert forall i | 0 <= i < |front| :: front[i] == metas[i];
      LocalAnimesPassStable(t, front);
    }
  }

  lemma LocalAnimesPassStep(t: Table<AnimeRow>, metas: seq<Dict>, i: nat)
    requires AnimesOk(t) && i < |metas|
    ensures LocalAnimesPass(t, metas[..i + 1]) == LocalAnimeStep(LocalAnimesPass(t, metas[..i]), metas[i])
  {
    assert metas[..i + 1][..i] == metas[..i];
  }

  lemma {:induction false} LocalAnimesPassAborted(t: Table<AnimeRow>, metas: seq<Dict>, n: nat)
    requires AnimesOk(t) && n <= |metas| && LocalAnimesPass(t, metas[..n]).failure.Some?
    ensures LocalAnimesPass(t, metas) == LocalAnimesPass(t, metas[..n])
    decreases |metas| - n
  {
    if n < |metas| {
      LocalAnimesPassStep(t, metas, n);
      LocalAnimesPassAborted(t, metas, n + 1);
    } else {
      assert metas[..n] == metas;
    }
  }

  /** Lines 24-44 on the local database: every dict's anime goes to `insert_anime`; a missing key stops the loop. */
  method InsertLocalAnimes(db: Database, metas: seq<Dict>) returns (failure: Option<PyError>)
    requires db.Valid()
    modifies db
    ensures db.Valid() && db.episodes == old(db.episodes)
    ensures AnimePhase(db.animes, failure) == LocalAnimesPass(old(db.animes), metas)
  {
    ghost var t := db.animes;
    var i := 0;
    while i < |metas|
      invariant 0 <= i <= |metas|
      invariant db.Valid() && db.episodes == old(db.episodes)
      invariant LocalAnimesPass(t, metas[..i]) == AnimePhase(db.animes, None)
    {
      LocalAnimesPassStep(t, metas, i);
      var parsed := MetadataAnime(metas[i]);
      if parsed.Err? {
        LocalAnimesPassAborted(t, metas, i + 1);
        return Some(parsed.error);
      }
      // corrected: the entry carries the "not yet posted" markers `insert_anime` reads
      var anime := new AnimeEntry(parsed.value, "#none", "#none");
      var _ := db.InsertAnime(anime);
      i := i + 1;
    }
    assert metas[..i] == metas;
    return None;
  }

  // ---------------------------------------------------------------- the episode loop of lines 73-82

  /** The dict of lines 56-63, the one `Episode(**episode_data)` receives at line 75. */
  function CandidateDict(m: Merged): Dict {
    map["mal_id" := m.malId, "episode_number" := m.episodeNumber, "watch_link" := m.watchLink,
        "download_link_hd" := m.downloadLinkHd, "download_link_sd" := m.downloadLinkSd, "temp" := m.temp]
  }

  /** Line 75 as written: `Episode(**episode_data)` on the dict, which has no `anime_id`. */
  function LocalEpisodeAsWritten(m: Merged): Result<Episode, PyError> {
    match EpisodeFromDict(CandidateDict(m))
    case Err(_) => Err(TypeError)
    case Ok(e) => Ok(e)
  }

  /**
   * `anime_id` is a required argument of `Episode`, so line 75 raises
   * TypeError for every candidate: as written, any run that reaches the
   * episode loop with a candidate stops there before inserting an episode.
   */
  lemma LocalEpisodeAsWrittenRaises(cs: seq<Merged>)
    ensures forall i | 0 <= i < |cs| :: LocalEpisodeAsWritten(cs[i]) == Err(TypeError)
  {
    forall i | 0 <= i < |cs|
      ensures LocalEpisodeAsWritten(cs[i]) == Err(TypeError)
    {
      assert "anime_id" in EpisodeRequired && "anime_id" !in CandidateDict(cs[i]);
    }
  }

  /** `get_anime_id_by_mal_id(mal_id)` as a Python value: the anime's id, or None. */
  function AnimeIdValue(animes: Table<AnimeRow>, malId: PyValue): (v: PyValue)
    requires WellNumbered(animes)
    ensures v == PyNone <==> forall k | k in animes.rows :: !Clash(animes.rows[k].anime.malId, malId)
    ensures v != PyNone ==> v.PyInt? && v.i in animes.rows && Clash(animes.rows[v.i].anime.malId, malId)
  {
    var id := AnimeIdFor(animes, malId);
    if id == BAD_ID then PyNone else PyInt(id)
  }

  /** The dict of line 75 with the `anime_id` of the anime that has the candidate's `mal_id`. */
  function CorrectedDict(animes: Table<AnimeRow>, m: Merged): Dict
    requires WellNumbered(animes)
  {
    CandidateDict(m)["anime_id" := AnimeIdValue(animes, m.malId)]
  }

  /** The episode built from the corrected dict. */
  function LocalEpisodeFor(animes: Table<AnimeRow>, m: Merged): Episode
    requires WellNumbered(animes)
  {
    Episode(AnimeIdValue(animes, m.malId), m.malId, m.episodeNumber, m.watchLink,
            m.downloadLinkHd, m.downloadLinkSd, m.temp)
  }

  /** With `anime_id` added, `Episode(**episode_data)` binds and keeps every value of the candidate. */
  lemma CorrectedDictBinds(animes: Table<AnimeRow>, m: Merged)
    requires WellNumbered(animes)
    ensures EpisodeFromDict(CorrectedDict(animes, m)) == Ok(LocalEpisodeFor(animes, m))
  {
    var e := LocalEpisodeFor(animes, m);
    assert CorrectedDict(animes, m) == EpisodeToDict(e);
    EpisodeRoundTrip(e);
  }

  /**
   * The row the corrected `insert_episode` call stores: `added_to` is
   * `"#none"`, as for an anime (as written the entry has none, and
   * local/db_sqlite3.py line 181 would raise AttributeError).
   */
  function LocalEpisodeRow(animes: Table<AnimeRow>, m: Merged): EpisodeRow
    requires WellNumbered(animes)
  {
    StoredEpisode(LocalEpisodeFor(animes, m), "#none")
  }

  /** One iteration of lines 74-82: skip a stored `(mal_id, episode_number)`, otherwise `insert_episode`. */
  function LocalEpisodeStep(animes: Table<AnimeRow>, t: Table<EpisodeRow>, m: Merged): (r: Table<EpisodeRow>)
    requires WellNumbered(animes) && EpisodesOk(t)
    ensures EpisodesOk(r)
  {
    var e := LocalEpisodeFor(animes, m);
    if EpisodeIdFor(t, e.malId, e.episodeNumber) != BAD_ID then t
    else if EpisodeRowAccepted(t, LocalEpisodeRow(animes, m)) then
      AppendKeepsInvariant(t, EpisodeRowConflict, LocalEpisodeRow(animes, m));
      Append(t, LocalEpisodeRow(animes, m))
    else t
  }

  function LocalEpisodesPass(animes: Table<AnimeRow>, t: Table<EpisodeRow>, order: seq<Merged>): (r: Table<EpisodeRow>)
    requires WellNumbered(animes) && EpisodesOk(t)
    ensures EpisodesOk(r)
  {
    if order == [] then t
    else LocalEpisodeStep(animes, LocalEpisodesPass(animes, t, order[..|order| - 1]), order[|order| - 1])
  }

  /** A row the table refuses stays refused once more rows are added. */
  lemma EpisodeRefusedGrows(t: Table<EpisodeRow>, t': Table<EpisodeRow>, r: EpisodeRow)
    requires Extends(t, t') && !EpisodeRowAccepted(t, r)
    ensures !EpisodeRowAccepted(t', r)
  {
    if SqliteStore.EpisodeRowOk(r.episode) {
      var i :| i in t.rows && (EpisodeRowConflict(t.rows[i], r) || EpisodeRowConflict(r, t.rows[i]));
      assert i in t'.rows && t'.rows[i] == t.rows[i];
    }
  }

  /** The candidate's row is one the table refuses. */
  ghost predicate EpisodeSettled(animes: Table<AnimeRow>, t: Table<EpisodeRow>, m: Merged)
    requires WellNumbered(animes)
  {
    !EpisodeRowAccepted(t, LocalEpisodeRow(animes, m))
  }

  /** After one iteration the candidate is refused: it was found, rejected, or has just been stored. */
  lemma LocalEpisodeStepSettles(animes: Table<AnimeRow>, t: Table<EpisodeRow>, m: Merged)
    requires WellNumbered(animes) && EpisodesOk(t)
    ensures Extends(t, LocalEpisodeStep(animes, t, m))
    ensures EpisodeSettled(animes, LocalEpisodeStep(animes, t, m), m)
  {
    var e := LocalEpisodeFor(animes, m);
    var row := LocalEpisodeRow(animes, m);
    var r := LocalEpisodeStep(animes, t, m);
    var id := EpisodeIdFor(t, e.malId, e.episodeNumber);
    if id != BAD_ID {
      assert EpisodeRowConflict(t.rows[id], row);
    } else if EpisodeRowAccepted(t, row) {
      AppendKeepsInvariant(t, EpisodeRowConflict, row);
      assert r.rows[t.nextId] == row;
      assert EpisodeRowConflict(r.rows[t.nextId], row);
    }
  }

  /** After the loop, every candidate it visited is refused by the table: a second visit inserts nothing. */
  lemma {:induction false} LocalEpisodesPassSettles(animes: Table<AnimeRow>, t: Table<EpisodeRow>, order: seq<Merged>)
    requires WellNumbered(animes) && EpisodesOk(t)
    ensures Extends(t, LocalEpisodesPass(animes, t, order))
    ensures forall i | 0 <= i < |order| :: EpisodeSettled(animes, LocalEpisodesPass(animes, t, order), order[i])
  {
    if order != [] {
      var front := order[..|order| - 1];
      var prev := LocalEpisodesPass(animes, t, front);
      var r := LocalEpisodesPass(animes, t, order);
      assert r == LocalEpisodeStep(animes, prev, order[|order| - 1]);
      LocalEpisodeStepSettles(animes, prev, order[|order| - 1]);
      LocalEpisodesPassSettles(animes, t, front);
      forall i | 0 <= i < |order| - 1
        ensures EpisodeSettled(animes, r, order[i])
      {
        assert order[i] == front[i];
        EpisodeRefusedGrows(prev, r, LocalEpisodeRow(animes, order[i]));
      }
    }
  }

  /** When every candidate is refused, the loop changes nothing. */
  lemma {:induction false} LocalEpisodesPassStable(animes: Table<AnimeRow>, t: Table<EpisodeRow>, order: seq<Merged>)
    requires WellNumbered(animes) && EpisodesOk(t)
    requires forall i | 0 <= i < |order| :: EpisodeSettled(animes, t, order[i])
    ensures LocalEpisodesPass(animes, t, order) == t
  {
    if order != [] {
      var front := order[..|order| - 1];
      assert forall i | 0 <= i < |front| :: front[i] == order[i];
      LocalEpisodesPassStable(animes, t, front);
    }
  }

  lemma LocalEpisodesPassConcat(animes: Table<AnimeRow>, t: Table<EpisodeRow>, order: seq<Merged>, m: Merged)
    requires WellNumbered(animes) && EpisodesOk(t)
    ensures LocalEpisodesPass(animes, t, order + [m]) == LocalEpisodeStep(animes, LocalEpisodesPass(animes, t, order), m)
  {
    assert (order + [m])[..|order|] == order;
  }

  lemma FlattenStep(g: Groups, ks: seq<SqlValue>, i: nat)
    requires Listed(g, ks) && i < |ks|
    ensures Listed(g, ks[..i]) && Listed(g, ks[..i + 1])
    ensures Flatten(g, ks[..i + 1]) == Flatten(g, ks[..i]) + g.lists[ks[i]]
  {
    assert ks[..i + 1][..i] == ks[..i];
  }

  /** Lines 75-82 for one candidate, with the `anime_id` of line 75 looked up by its `mal_id`. */
  method InsertCandidate(db: Database, m: Merged)
    requires db.Valid()
    modifies db
    ensures db.Valid() && db.animes == old(db.animes)
    ensures db.episodes == LocalEpisodeStep(db.animes, old(db.episodes), m)
  {
    var animeId := db.GetAnimeIdByMalId(m.malId);
    var animeIdValue := if animeId.Some? then PyInt(animeId.value) else PyNone;
    assert animeIdValue == AnimeIdValue(db.animes, m.malId);
    CorrectedDictBinds(db.animes, m);
    var episode := new EpisodeEntry(EpisodeFromDict(CandidateDict(m)["anime_id" := animeIdValue]).value, "#none");
    var episodeId := db.GetEpisodeMalId(episode.record);
    if episodeId.None? {
      var _ := db.InsertEpisode(episode);
    }
  }

  /** The inner loop of lines 74-82: the candidates of one episode number, in their order. */
  lemma PrefixStep(done: seq<Merged>, list: seq<Merged>, j: nat)
    requires j < |list|
    ensures done + list[..j + 1] == (done + list[..j]) + [list[j]]
  {
    assert list[..j + 1] == list[..j] + [list[j]];
  }

  method InsertGroup(db: Database, list: seq<Merged>, ghost t: Table<EpisodeRow>, ghost done: seq<Merged>)
    requires db.Valid() && EpisodesOk(t) && db.episodes == LocalEpisodesPass(db.animes, t, done)
    modifies db
    ensures db.Valid() && db.animes == old(db.animes)
    ensures db.episodes == LocalEpisodesPass(db.animes, t, done + list)
  {
    var j := 0;
    assert done + list[..0] == done;
    while j < |list|
      invariant 0 <= j <= |list|
      invariant db.Valid() && db.animes == old(db.animes)
      invariant db.episodes == LocalEpisodesPass(db.animes, t, done + list[..j])
    {
      LocalEpisodesPassConcat(db.animes, t, done + list[..j], list[j]);
      PrefixStep(done, list, j);
      InsertCandidate(db, list[j]);
      j := j + 1;
    }
    assert list[..j] == list;
  }

  /**
   * Lines 73-82 with the corrected line 75: the groups of `g` visited in the
   * order `ks`, each candidate looked up and inserted when not yet stored.
   */
  method InsertOrdered(db: Database, g: Groups, ks: seq<SqlValue>)
    requires db.Valid()
    requires Listed(g, ks)
    modifies db
    ensures db.Valid() && db.animes == old(db.animes)
    ensures db.episodes == LocalEpisodesPass(db.animes, old(db.episodes), Flatten(g, ks))
  {
    ghost var t := db.episodes;
    var i := 0;
    while i < |ks|
      invariant 0 <= i <= |ks|
      invariant db.Valid() && db.animes == old(db.animes)
      invariant Listed(g, ks[..i])
      invariant db.episodes == LocalEpisodesPass(db.animes, t, Flatten(g, ks[..i]))
    {
      FlattenStep(g, ks, i);
      InsertGroup(db, g.lists[ks[i]], t, Flatten(g, ks[..i]));
      i := i + 1;
    }
    assert ks[..i] == ks;
  }

  // ---------------------------------------------------------------- data_collect_and_insert_in_database

  /** What one run leaves in the two tables, and whether it raised. */
  datatype LocalRun = LocalRun(animes: Table<AnimeRow>, episodes: Table<EpisodeRow>, result: Result<(), PyError>)

  /**
   * Lines 20-83 on the extracted data: the animes; KeyError stops the run;
   * then the grouping, which stops at a disagreeing pair (AssertionError);
   * `sorted` raises TypeError when the episode numbers are of mixed kinds;
   * then the episodes in the sorted order.
   */
  function LocalIngest(ta: Table<AnimeRow>, te: Table<EpisodeRow>, metas: seq<Dict>,
                       ws: seq<seq<WatchRecord>>, ds: seq<seq<DownloadRecord>>): (r: LocalRun)
    requires AnimesOk(ta) && EpisodesOk(te)
    ensures AnimesOk(r.animes) && EpisodesOk(r.episodes)
  {
    var ap := LocalAnimesPass(ta, metas);
    if ap.failure.Some? then LocalRun(ap.table, te, Err(ap.failure.value))
    else match Combined(ws, ds)
      case Err(e) => LocalRun(ap.table, te, Err(e))
      case Ok(cs) =>
        if !Sortable(GroupAll(cs).keys) then LocalRun(ap.table, te, Err(TypeError))
        else LocalRun(ap.table, LocalEpisodesPass(ap.table, te, VisitOrder(cs)), Ok(()))
  }

  /** Every run changes the tables only by inserting rows. */
  lemma LocalIngestExtends(ta: Table<AnimeRow>, te: Table<EpisodeRow>, metas: seq<Dict>,
                           ws: seq<seq<WatchRecord>>, ds: seq<seq<DownloadRecord>>)
    requires AnimesOk(ta) && EpisodesOk(te)
    ensures Extends(ta, LocalIngest(ta, te, metas, ws, ds).animes)
    ensures Extends(te, LocalIngest(ta, te, metas, ws, ds).episodes)
  {
    var ap := LocalAnimesPass(ta, metas);
    if ap.failure.None? {
      LocalAnimesPassSettles(ta, metas);
      if Combined(ws, ds).Ok? {
        LocalEpisodesPassSettles(ap.table, te, VisitOrder(Combined(ws, ds).value));
      }
    } else {
      LocalAnimesExtend(ta, metas);
    }
  }

  lemma {:induction false} LocalAnimesExtend(t: Table<AnimeRow>, metas: seq<Dict>)
    requires AnimesOk(t)
    ensures Extends(t, LocalAnimesPass(t, metas).table)
  {
    if metas != [] {
      var front := metas[..|metas| - 1];
      LocalAnimesExtend(t, front);
      var prev := LocalAnimesPass(t, front);
      if prev.failure.None? && MetadataAnime(metas[|metas| - 1]).Ok? {
        var row := LocalAnimeRow(MetadataAnime(metas[|metas| - 1]).value);
        if AnimeRowAccepted(prev.table, row) {
          AppendKeepsInvariant(prev.table, AnimeRowConflict, row);
        }
      }
    }
  }

  /** Idempotence: after a run that raised nothing, a second run on the same data raises nothing and changes nothing. */
  lemma LocalIngestIdempotent(ta: Table<AnimeRow>, te: Table<EpisodeRow>, metas: seq<Dict>,
                              ws: seq<seq<WatchRecord>>, ds: seq<seq<DownloadRecord>>)
    requires AnimesOk(ta) && EpisodesOk(te)
    requires LocalIngest(ta, te, metas, ws, ds).result.Ok?
    ensures var r := LocalIngest(ta, te, metas, ws, ds);
      LocalIngest(r.animes, r.episodes, metas, ws, ds) == LocalRun(r.animes, r.episodes, Ok(()))
  {
    var ap := LocalAnimesPass(ta, metas);
    LocalAnimesPassSettles(ta, metas);
    LocalAnimesPassStable(ap.table, metas);
    var order := VisitOrder(Combined(ws, ds).value);
    LocalEpisodesPassSettles(ap.table, te, order);
    LocalEpisodesPassStable(ap.table, LocalEpisodesPass(ap.table, te, order), order);
  }

  /**
   * Lines 20-83 as written: the anime loop raises at its first dict
   * (LocalAnimesPassAsWritten); with no metadata, the grouping and sorting
   * run as in LocalIngest, and the first candidate then raises TypeError at
   * line 75 (LocalEpisodeAsWrittenRaises). No row is ever stored.
   */
  function LocalIngestAsWritten(ta: Table<AnimeRow>, te: Table<EpisodeRow>, metas: seq<Dict>,
                                ws: seq<seq<WatchRecord>>, ds: seq<seq<DownloadRecord>>): (r: LocalRun)
    ensures r.animes == ta && r.episodes == te
    ensures metas != [] ==> r.result == Err(if AnimeParams <= metas[0].Keys then AttributeError else KeyError)
  {
    var ap := LocalAnimesPassAsWritten(ta, metas);
    if ap.failure.Some? then LocalRun(ta, te, Err(ap.failure.value))
    else match Combined(ws, ds)
      case Err(e) => LocalRun(ta, te, Err(e))
      case Ok(cs) =>
        if !Sortable(GroupAll(cs).keys) then LocalRun(ta, te, Err(TypeError))
        else if VisitOrder(cs) == [] then LocalRun(ta, te, Ok(()))
        else LocalRun(ta, te, Err(TypeError))
  }

  /**
   * The missing `added_to`: as written, a run whose first dict holds all
   * sixteen keys raises AttributeError and stores nothing, while the
   * corrected run stores that dict's anime (or finds it already there).
   */
  lemma AddedToMissing(ta: Table<AnimeRow>, te: Table<EpisodeRow>, metas: seq<Dict>,
                       ws: seq<seq<WatchRecord>>, ds: seq<seq<DownloadRecord>>)
    requires AnimesOk(ta) && EpisodesOk(te)
    requires metas != [] && AnimeParams <= metas[0].Keys
    ensures LocalIngestAsWritten(ta, te, metas, ws, ds) == LocalRun(ta, te, Err(AttributeError))
    ensures LocalAnimesPass(ta, metas[..1]).failure.None?
    ensures AnimeSettled(LocalAnimesPass(ta, metas[..1]).table, metas[0])
  {
    var first := metas[..1];
    assert first[..0] == [] && first[0] == metas[0];
    LocalAnimesPassSettles(ta, first);
  }

  /**
   * `data_collect_and_insert_in_database` on the extracted metadata, watch
   * and download lists: raises as LocalIngest says and leaves its tables.
   */
  method DataCollectAndInsert(db: Database, metas: seq<Dict>, ws: seq<seq<WatchRecord>>, ds: seq<seq<DownloadRecord>>)
    returns (r: Result<(), PyError>)
    requires db.Valid()
    modifies db
    ensures db.Valid()
    ensures LocalRun(db.animes, db.episodes, r) == LocalIngest(old(db.animes), old(db.episodes), metas, ws, ds)
  {
    var failure := InsertLocalAnimes(db, metas);
    if failure.Some? {
      return Err(failure.value);
    }
    var combined := GroupLinks(ws, ds);
    if combined.Err? {
      return Err(combined.error);
    }
    var g := combined.value;
    if !Sortable(g.keys) {
      return Err(TypeError);
    }
    ghost var cs := Combined(ws, ds).value;
    GroupAllMeaning(cs);
    SortKeysMeaning(g.keys);
    var ordered := SortKeys(g.keys);
    InsertOrdered(db, g, ordered);
    return Ok(());
  }
}
