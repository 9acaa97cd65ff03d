/**
 * The post-processing half of `shared_components/data_colect.py`: which
 * anchors of the release listing are kept, how far the per-episode probing
 * of watch and download pages goes, how download links are classified, how
 * the anime name is cut out of an AnimeFire URL, and how the per-anime
 * results are assembled. Every HTTP answer is an input: a listing page, the
 * outcome of probing one ordinal, or a site seen as a function from the name
 * or URL asked for to what it answers.
 */
module DataCollect {
  import opened Wrappers
  import opened PyValues
  import opened Text
  import opened DbStructs

  /** The cap the release listing puts on `extract_amount`. */
  const HARD_LIMIT: int := 100
  /** `range(1000)`: the probing loops look at ordinals 0..999 at most. */
  const MAX_EPISODES: nat := 1000
  /** `URL_AF_FILTER_RELEAES` */
  const RELEASES_FILTER: string := "https://animefire.plus/animes/"
  const DUBBED_TAG: string := "(Dublado)"
  const ALL_EPISODES_SUFFIX: string := "-todos-os-episodios"
  /** The two entries of `URLS_AF_FILTER_DOWNLOADS_LINKS`. */
  const MP4_FILTER: string := "https://s2.lightspeedst.net/s2/mp4/"
  const MP4_TEMP_FILTER: string := "https://s2.lightspeedst.net/s2/mp4_temp/"
  const SD_TAG: string := "(SD)"
  const HD_TAG: string := "(HD)"
  const TEMP_TAG: string := "mp4_temp"

  /** `{"mal_id": ..., "ep": ..., "watch_link": ...}` */
  datatype WatchRecord = WatchRecord(malId: PyValue, ep: PyValue, watchLink: PyValue)

  /** `{'mal_id': ..., 'episode': ..., 'sd': ..., 'hd': ..., 'temp': ...}` */
  datatype DownloadRecord = DownloadRecord(malId: PyValue, episode: PyValue, sd: PyValue, hd: PyValue, temp: PyValue)

  /** The first `n` items, none when `n` is not positive. */
  function Take<T>(s: seq<T>, n: int): (r: seq<T>)
    ensures |r| <= |s| && r == s[..|r|]
    ensures n <= 0 ==> r == []
    ensures 0 <= n ==> |r| == if n < |s| then n else |s|
  {
    if n <= 0 then [] else if n >= |s| then s else s[..n]
  }

  /** Once `n` items are taken, whatever comes later is not looked at. */
  lemma TakeSaturated<T>(s: seq<T>, t: seq<T>, n: int)
    requires 0 < n <= |Take(s, n)|
    ensures Take(s + t, n) == Take(s, n)
  {
    assert (s + t)[..n] == s[..n];
  }

  /** Below the cap, one more item is one more item taken. */
  lemma TakeAppend<T>(s: seq<T>, x: T, n: int)
    requires |Take(s, n)| < n
    ensures Take(s + [x], n) == Take(s, n) + [x]
  {
  }

  // ---------------------------------------------------------------- release listing

  /** An `<a>` element: its `href` attribute (possibly absent) and its text. */
  datatype Anchor = Anchor(href: Option<string>, text: string)

  /**
   * One page of the release listing: a request that raised before any
   * response arrived (connection error, timeout), an HTTP error status, a
   * page whose processing raised some other exception, or the page's anchors.
   */
  datatype ListingPage = RequestFailed | HttpError | Broken | Listing(anchors: seq<Anchor>)

  /** An anchor the listing keeps: it links to an anime page and is not a dub (unless dubs are wanted). */
  predicate KeptAnchor(a: Anchor, extractDub: bool) {
    a.href.Some? && Contains(a.href.value, RELEASES_FILTER)
    && (extractDub || !Contains(a.text, DUBBED_TAG))
  }

  /** The `(text, href)` pairs of the kept anchors, in page order. */
  function Kept(anchors: seq<Anchor>, extractDub: bool): (r: seq<(string, string)>)
    ensures |r| <= |anchors|
  {
    if anchors == [] then []
    else
      var a := anchors[|anchors| - 1];
      Kept(anchors[..|anchors| - 1], extractDub) + (if KeptAnchor(a, extractDub) then [(a.text, a.href.value)] else [])
  }

  /** The kept pairs of a run of listing pages, page after page. */
  function KeptOfPages(pages: seq<ListingPage>, extractDub: bool): (r: seq<(string, string)>)
  {
    if pages == [] then []
    else
      var last := pages[|pages| - 1];
      KeptOfPages(pages[..|pages| - 1], extractDub) + (if last.Listing? then Kept(last.anchors, extractDub) else [])
  }

  /** A pair the listing keeps links to an anime page, and is not a dub unless dubs are wanted. */
  predicate KeptPair(p: (string, string), extractDub: bool) {
    Contains(p.1, RELEASES_FILTER) && (extractDub || !Contains(p.0, DUBBED_TAG))
  }

  lemma {:induction false} KeptFiltered(anchors: seq<Anchor>, extractDub: bool)
    ensures forall p | p in Kept(anchors, extractDub) :: KeptPair(p, extractDub)
  {
    if anchors != [] {
      KeptFiltered(anchors[..|anchors| - 1], extractDub);
    }
  }

  lemma {:induction false} KeptOfPagesFiltered(pages: seq<ListingPage>, extractDub: bool)
    ensures forall p | p in KeptOfPages(pages, extractDub) :: KeptPair(p, extractDub)
  {
    if pages != [] {
      KeptOfPagesFiltered(pages[..|pages| - 1], extractDub);
      if pages[|pages| - 1].Listing? {
        KeptFiltered(pages[|pages| - 1].anchors, extractDub);
      }
    }
  }

  lemma {:induction false} KeptOfPagesAppend(a: seq<ListingPage>, b: seq<ListingPage>, dub: bool)
    ensures KeptOfPages(a + b, dub) == KeptOfPages(a, dub) + KeptOfPages(b, dub)
    decreases |b|
  {
    if b != [] {
      var b' := b[..|b| - 1];
      assert (a + b)[..|a + b| - 1] == a + b';
      KeptOfPagesAppend(a, b', dub);
    } else {
      assert a + b == a;
    }
  }

  /** A page after which the listing stops: an error, or a page without any anchor. */
  predicate Stops(p: ListingPage) {
    !p.Listing? || p.anchors == []
  }

  /** The index of the first page the listing stops at (`|pages|` when none does). */
  function FirstStop(pages: seq<ListingPage>): (k: nat)
    ensures k <= |pages|
    ensures forall i | 0 <= i < k :: !Stops(pages[i])
    ensures k < |pages| ==> Stops(pages[k])
  {
    if pages == [] || Stops(pages[0]) then 0 else 1 + FirstStop(pages[1..])
  }

  /** `min(extract_amount, hard_limit)` */
  function Cap(extractAmount: int): int {
    if extractAmount < HARD_LIMIT then extractAmount else HARD_LIMIT
  }

  /**
   * `get_title_and_hyperlinks_from_af`: pages are fetched from `start_page`
   * on (`pages[0]` is that page, and a page past the end of `pages` has no
   * anchors). Kept pairs are collected until the capped amount is reached,
   * and the listing stops after the first error or anchor-less page. The
   * `requests.get` call sits outside the `try`, so when the listing reaches a
   * page whose request raises, the exception escapes and no list is returned.
   */
  method TitleAndHyperlinks(pages: seq<ListingPage>, extractAmount: int, extractDub: bool)
    returns (r: Result<seq<(string, string)>, PyError>)
    ensures r.Err? <==>
      && FirstStop(pages) < |pages| && pages[FirstStop(pages)].RequestFailed?
      && |Take(KeptOfPages(pages[..FirstStop(pages)], extractDub), Cap(extractAmount))| < Cap(extractAmount)
    ensures r.Err? ==> r.error == RequestException
    ensures r.Ok? ==> r.value == Take(KeptOfPages(pages[..FirstStop(pages)], extractDub), Cap(extractAmount))
    ensures r.Ok? ==> |r.value| <= HARD_LIMIT && (extractAmount <= 0 ==> r.value == [])
    ensures r.Ok? && extractAmount >= 0 ==> |r.value| <= extractAmount
    ensures r.Ok? ==> forall p | p in r.value :: KeptPair(p, extractDub)
  {
    var amount := Cap(extractAmount);
    ghost var all := KeptOfPages(pages[..FirstStop(pages)], extractDub);
    var results := [];
    var page := 0;
    while |results| < amount
      invariant 0 <= page <= FirstStop(pages)
      invariant results == Take(KeptOfPages(pages[..page], extractDub), amount)
      decreases |pages| - page
    {
      if page == |pages| {
        ListingDone(pages, page, amount, extractDub);
        break;
      }
      match pages[page]
      case RequestFailed =>
        assert page == FirstStop(pages);
        return Err(RequestException);
      case HttpError =>
        ListingDone(pages, page, amount, extractDub);
        break;
      case Broken =>
        ListingDone(pages, page, amount, extractDub);
        break;
      case Listing(links) =>
        ghost var done := KeptOfPages(pages[..page], extractDub);
        if |links| == 0 {
          ListingDone(pages, page, amount, extractDub);
          assert Kept(links, extractDub) == [] && done + [] == done;
        }
        results := CollectFromPage(results, links, amount, extractDub, done);
        assert pages[..page + 1][..page] == pages[..page];
        page := page + 1;
        if |links| == 0 {
          break;
        }
    }
    if |results| >= amount && page <= FirstStop(pages) {
      ListingDone(pages, page, amount, extractDub);
    }
    assert results == Take(all, amount);
    KeptOfPagesFiltered(pages[..FirstStop(pages)], extractDub);
    assert forall p | p in results :: p in all;
    return Ok(results);
  }

  /** Once the listing has stopped, or enough pairs are taken, the pages after `page` change nothing. */
  lemma ListingDone(pages: seq<ListingPage>, page: int, amount: int, dub: bool)
    requires 0 <= page <= FirstStop(pages)
    requires page == FirstStop(pages) || page == |pages| || !pages[page].Listing? || pages[page].anchors == []
          || |Take(KeptOfPages(pages[..page], dub), amount)| >= amount
    ensures Take(KeptOfPages(pages[..page], dub), amount) == Take(KeptOfPages(pages[..FirstStop(pages)], dub), amount)
  {
    var stop := FirstStop(pages);
    if page < stop && amount > 0 {
      assert !Stops(pages[page]);
      KeptOfPagesSaturated(pages, page, stop, amount, dub);
    }
  }

  lemma KeptOfPagesSaturated(pages: seq<ListingPage>, page: int, stop: int, amount: int, dub: bool)
    requires 0 <= page <= stop <= |pages| && 0 < amount <= |Take(KeptOfPages(pages[..page], dub), amount)|
    ensures Take(KeptOfPages(pages[..page], dub), amount) == Take(KeptOfPages(pages[..stop], dub), amount)
  {
    var front, back := pages[..page], pages[page..stop];
    assert pages[..stop] == front + back;
    KeptOfPagesAppend(front, back, dub);
    TakeSaturated(KeptOfPages(front, dub), KeptOfPages(back, dub), amount);
  }

  /** One anchor more: a kept anchor adds its pair to what is taken, any other leaves it as it was. */
  lemma CollectStep(done: seq<(string, string)>, links: seq<Anchor>, j: int, amount: int, dub: bool)
    requires 0 <= j < |links| && |Take(done + Kept(links[..j], dub), amount)| < amount
    ensures KeptAnchor(links[j], dub) ==> (
      Take(done + Kept(links[..j + 1], dub), amount)
      == Take(done + Kept(links[..j], dub), amount) + [(links[j].text, links[j].href.value)])
    ensures !KeptAnchor(links[j], dub) ==> (
      Take(done + Kept(links[..j + 1], dub), amount) == Take(done + Kept(links[..j], dub), amount))
  {
    KeptStep(links, j, dub);
    if KeptAnchor(links[j], dub) {
      var x := (links[j].text, links[j].href.value);
      TakeAppend(done + Kept(links[..j], dub), x, amount);
      assert done + Kept(links[..j + 1], dub) == done + Kept(links[..j], dub) + [x];
    } else {
      assert done + Kept(links[..j + 1], dub) == done + Kept(links[..j], dub);
    }
  }

  lemma KeptStep(links: seq<Anchor>, j: int, dub: bool)
    requires 0 <= j < |links|
    ensures Kept(links[..j + 1], dub)
      == Kept(links[..j], dub) + (if KeptAnchor(links[j], dub) then [(links[j].text, links[j].href.value)] else [])
  {
    assert links[..j + 1][..j] == links[..j];
  }

  lemma {:induction false} KeptAppend(a: seq<Anchor>, b: seq<Anchor>, dub: bool)
    ensures Kept(a + b, dub) == Kept(a, dub) + Kept(b, dub)
    decreases |b|
  {
    if b != [] {
      var b' := b[..|b| - 1];
      assert (a + b)[..|a + b| - 1] == a + b';
      KeptAppend(a, b', dub);
    } else {
      assert a + b == a;
    }
  }

  /**
   * The inner loop over one page's anchors: kept pairs are appended until
   * `amount` pairs have been collected. `done` is what the earlier pages
   * offered.
   */
  method CollectFromPage(results0: seq<(string, string)>, links: seq<Anchor>, amount: int, extractDub: bool,
                         ghost done: seq<(string, string)>)
    returns (results: seq<(string, string)>)
    requires results0 == Take(done, amount)
    ensures results == Take(done + Kept(links, extractDub), amount)
  {
    results := results0;
    assert done + Kept(links[..0], extractDub) == done;
    var j := 0;
    while j < |links| && |results| < amount
      invariant 0 <= j <= |links|
      invariant results == Take(done + Kept(links[..j], extractDub), amount)
    {
      var link := links[j];
      CollectStep(done, links, j, amount, extractDub);
      assert KeptAnchor(link, extractDub)
        <==> link.href.Some? && Contains(link.href.value, RELEASES_FILTER) && !(!extractDub && Contains(link.text, DUBBED_TAG));
      if link.href.Some? && Contains(link.href.value, RELEASES_FILTER) {
        if !extractDub && Contains(link.text, DUBBED_TAG) {
          j := j + 1;
          continue;
        }
        results := results + [(link.text, link.href.value)];
      }
      j := j + 1;
    }
    CollectDone(done, links, j, amount, extractDub);
  }

  /** The inner loop may stop early: once `amount` pairs are taken, the rest of the page changes nothing. */
  lemma CollectDone(done: seq<(string, string)>, links: seq<Anchor>, j: int, amount: int, dub: bool)
    requires 0 <= j <= |links|
    requires j == |links| || |Take(done + Kept(links[..j], dub), amount)| >= amount
    ensures Take(done + Kept(links[..j], dub), amount) == Take(done + Kept(links, dub), amount)
  {
    if j == |links| {
      assert links[..j] == links;
    } else if amount > 0 {
      KeptSaturated(done, links, j, amount, dub);
    }
  }

  lemma KeptSaturated(done: seq<(string, string)>, links: seq<Anchor>, j: int, amount: int, dub: bool)
    requires 0 <= j <= |links| && 0 < amount <= |Take(done + Kept(links[..j], dub), amount)|
    ensures Take(done + Kept(links[..j], dub), amount) == Take(done + Kept(links, dub), amount)
  {
    KeptSplit(links, j, dub);
    var a, b := done + Kept(links[..j], dub), Kept(links[j..], dub);
    assert done + Kept(links, dub) == a + b;
    TakeSaturated(a, b, amount);
  }

  lemma KeptSplit(links: seq<Anchor>, j: int, dub: bool)
    requires 0 <= j <= |links|
    ensures Kept(links, dub) == Kept(links[..j], dub) + Kept(links[j..], dub)
  {
    assert links == links[..j] + links[j..];
    KeptAppend(links[..j], links[j..], dub);
  }

  // ---------------------------------------------------------------- probing episode pages

  /**
   * What probing one ordinal found: a 404, a page without the content looked
   * for, a page with it, or an exception (which ends the probing: the
   * `except` around the loop returns what was collected).
   */
  datatype Probe = Missing | Blank | Reached | Raised

  /** The outcome for ordinal `i`; ordinals past the input answer 404. */
  function ProbeAt(probes: seq<Probe>, i: int): Probe {
    if 0 <= i < |probes| then probes[i] else Missing
  }

  /** How many consecutive ordinals from `from` on were reached, within `range(1000)`. */
  function Run(probes: seq<Probe>, from: nat): (n: nat)
    ensures n > 0 ==> from + n <= MAX_EPISODES
    decreases MAX_EPISODES - from
  {
    if from >= MAX_EPISODES || ProbeAt(probes, from) != Reached then 0
    else 1 + Run(probes, from + 1)
  }

  /** The first ordinal collected: 0 when it was reached, else 1 (a miss is skipped only at 0). */
  function FirstOrdinal(probes: seq<Probe>): nat {
    if ProbeAt(probes, 0) == Reached then 0 else 1
  }

  /** How many ordinals are collected. */
  function RunLength(probes: seq<Probe>): nat {
    if ProbeAt(probes, 0) == Raised then 0 else Run(probes, FirstOrdinal(probes))
  }

  lemma {:induction false} RunFacts(probes: seq<Probe>, from: nat)
    ensures forall i | from <= i < from + Run(probes, from) :: ProbeAt(probes, i) == Reached
    ensures from + Run(probes, from) < MAX_EPISODES ==> ProbeAt(probes, from + Run(probes, from)) != Reached
    decreases MAX_EPISODES - from
  {
    if from < MAX_EPISODES && ProbeAt(probes, from) == Reached {
      RunFacts(probes, from + 1);
    }
  }

  /**
   * The ordinals collected form one contiguous range that starts at 0 or 1
   * and holds at most 1000 ordinals; every ordinal in it was reached, the
   * ordinal just past it was not, and ordinal 0 is left out only when it was
   * missed.
   */
  lemma ProbingShape(probes: seq<Probe>)
    ensures FirstOrdinal(probes) <= 1 && FirstOrdinal(probes) + RunLength(probes) <= MAX_EPISODES
    ensures FirstOrdinal(probes) == 1 ==> ProbeAt(probes, 0) != Reached
    ensures forall i | FirstOrdinal(probes) <= i < FirstOrdinal(probes) + RunLength(probes) :: ProbeAt(probes, i) == Reached
    ensures ProbeAt(probes, 0) != Raised && FirstOrdinal(probes) + RunLength(probes) < MAX_EPISODES ==> (
      ProbeAt(probes, FirstOrdinal(probes) + RunLength(probes)) != Reached)
  {
    RunFacts(probes, FirstOrdinal(probes));
  }

  /** Every ordinal of `from .. to - 1` was reached. */
  predicate AllReached(probes: seq<Probe>, from: nat, to: nat) {
    forall k | from <= k < to :: ProbeAt(probes, k) == Reached
  }

  /** A run of reached ordinals that ends at `to` is `Run`'s run. */
  lemma {:induction false} RunFrom(probes: seq<Probe>, from: nat, to: nat)
    requires from <= to <= MAX_EPISODES && AllReached(probes, from, to)
    requires to == MAX_EPISODES || ProbeAt(probes, to) != Reached
    ensures Run(probes, from) == to - from
    decreases (to as int) - from
  {
    if from < to {
      RunFrom(probes, from + 1, to);
    }
  }

  /**
   * The state of a probing loop about to probe ordinal `i`: `n` ordinals
   * collected so far, all of them reached, from `s = FirstOrdinal(probes)` on.
   */
  predicate Collecting(probes: seq<Probe>, s: nat, n: nat, i: nat) {
    && s == FirstOrdinal(probes)
    && (i == 0 ==> n == 0)
    && (i >= 1 ==> ProbeAt(probes, 0) != Raised && s + n == i && AllReached(probes, s, i))
  }

  /** A reached ordinal extends the collected run by one. */
  lemma RunAdvance(probes: seq<Probe>, s: nat, n: nat, i: nat)
    requires i < MAX_EPISODES && ProbeAt(probes, i) == Reached
    requires Collecting(probes, s, n, i)
    ensures Collecting(probes, s, n + 1, i + 1)
  {
  }

  /** A miss at ordinal 0 is skipped: collecting starts at 1. */
  lemma RunSkip(probes: seq<Probe>, s: nat, n: nat, i: nat)
    requires i == 0 && ProbeAt(probes, 0) != Reached && ProbeAt(probes, 0) != Raised
    requires Collecting(probes, s, n, i)
    ensures Collecting(probes, s, n, i + 1)
  {
  }

  /** The loop stops with the whole run collected: at an exception, at a miss past 0, or after `range(1000)`. */
  lemma RunStop(probes: seq<Probe>, s: nat, n: nat, i: nat)
    requires i <= MAX_EPISODES && Collecting(probes, s, n, i)
    requires i == MAX_EPISODES || ProbeAt(probes, i) == Raised || (i != 0 && ProbeAt(probes, i) != Reached)
    ensures n == RunLength(probes)
  {
    if i >= 1 && ProbeAt(probes, 0) != Raised {
      RunFrom(probes, s, i);
    }
  }

  /** `f"{base_url}/{i}"` */
  function WatchUrl(base: string, i: int): string {
    base + "/" + IntToString(i)
  }

  function WatchEntries(base: string, malId: PyValue, first: nat, n: nat): (r: seq<WatchRecord>)
    ensures |r| == n
    ensures forall k | 0 <= k < n ::
      (r[k].malId == malId && r[k].ep == PyInt(first + k) && r[k].watchLink == PyStr(WatchUrl(base, first + k)))
  {
    seq(n, k requires 0 <= k < n => WatchRecord(malId, PyInt(first + k), PyStr(WatchUrl(base, first + k))))
  }

  /** What `get_episodes_watch_links_from_af` returns: None for a None URL, else one record per ordinal collected. */
  function WatchResult(url: Option<string>, malId: PyValue, probes: seq<Probe>): Option<seq<WatchRecord>> {
    if url.None? then None
    else Some(WatchEntries(BeforeFirst(url.value, ALL_EPISODES_SUFFIX), malId, FirstOrdinal(probes), RunLength(probes)))
  }

  lemma WatchEntriesGrow(base: string, malId: PyValue, first: nat, n: nat)
    ensures WatchEntries(base, malId, first, n) + [WatchRecord(malId, PyInt(first + n), PyStr(WatchUrl(base, first + n)))]
         == WatchEntries(base, malId, first, n + 1)
  {
    var a := WatchEntries(base, malId, first, n);
    var b := WatchEntries(base, malId, first, n + 1);
    var x := WatchRecord(malId, PyInt(first + n), PyStr(WatchUrl(base, first + n)));
    forall k | 0 <= k < n + 1
      ensures (a + [x])[k] == b[k]
    {
      if k < n {
        assert (a + [x])[k] == a[k];
      }
    }
  }

  /** `get_episodes_watch_links_from_af(url, mal_id)`, where `probes[i]` is what `{base}/{i}` answered. */
  method WatchLinks(url: Option<string>, malId: PyValue, probes: seq<Probe>) returns (r: Option<seq<WatchRecord>>)
    ensures r == WatchResult(url, malId, probes)
  {
    if url.None? {
      return None;
    }
    var base := BeforeFirst(url.value, ALL_EPISODES_SUFFIX);
    ghost var s := FirstOrdinal(probes);
    ghost var n: nat := 0;
    var results: seq<WatchRecord> := [];
    var i := 0;
    while i < MAX_EPISODES
      invariant 0 <= i <= MAX_EPISODES
      invariant results == WatchEntries(base, malId, s, n)
      invariant i == 0 ==> n == 0
      invariant i >= 1 ==> ProbeAt(probes, 0) != Raised && s + n == i
      invariant i >= 1 ==> Run(probes, s) == n + Run(probes, i)
    {
      var outcome := ProbeAt(probes, i);
      if outcome == Missing || outcome == Blank {
        if i == 0 {
          i := i + 1;
          continue;
        } else {
          break;
        }
      }
      if outcome == Raised {
        break;
      }
      WatchEntriesGrow(base, malId, s, n);
      results := results + [WatchRecord(malId, PyInt(i), PyStr(WatchUrl(base, i)))];
      n := n + 1;
      i := i + 1;
    }
    assert n == RunLength(probes);
    r := Some(results);
  }

  /** What one download page answered: 404, the `href`s of its anchors, or an exception. */
  datatype DownloadProbe = Gone | Served(hrefs: seq<Option<string>>) | Fails

  /** A truthy `href` holding one of the download hosts. */
  predicate IsDownloadLink(h: string) {
    h != "" && (Contains(h, MP4_FILTER) || Contains(h, MP4_TEMP_FILTER))
  }

  /** The list comprehension that keeps the download links of a page, in page order. */
  function DownloadLinks(hrefs: seq<Option<string>>): (links: seq<string>)
    ensures |links| <= |hrefs|
  {
    if hrefs == [] then []
    else
      var h := hrefs[|hrefs| - 1];
      DownloadLinks(hrefs[..|hrefs| - 1]) + (if h.Some? && IsDownloadLink(h.value) then [h.value] else [])
  }

  /** Every link kept is a download link, and every download link of the page is kept. */
  lemma {:induction false} DownloadLinksMeaning(hrefs: seq<Option<string>>)
    ensures forall l | l in DownloadLinks(hrefs) :: IsDownloadLink(l)
    ensures forall i | 0 <= i < |hrefs| && hrefs[i].Some? && IsDownloadLink(hrefs[i].value) :: hrefs[i].value in DownloadLinks(hrefs)
  {
    if hrefs != [] {
      var front := hrefs[..|hrefs| - 1];
      DownloadLinksMeaning(front);
      assert forall i | 0 <= i < |front| :: front[i] == hrefs[i];
    }
  }

  /** The download links found at ordinal `i` (none for a 404, an exception or an ordinal past the input). */
  function LinksAt(probes: seq<DownloadProbe>, i: int): seq<string> {
    if 0 <= i < |probes| then PageLinks(probes)[i] else []
  }

  /** The download links of one page: none for a 404 or an exception. */
  function LinksOf(p: DownloadProbe): seq<string> {
    if p.Served? then DownloadLinks(p.hrefs) else []
  }

  /** The download links of every page probed, in ordinal order. */
  function PageLinks(probes: seq<DownloadProbe>): (r: seq<seq<string>>)
    ensures |r| == |probes|
  {
    if probes == [] then [] else PageLinks(probes[..|probes| - 1]) + [LinksOf(probes[|probes| - 1])]
  }

  lemma {:induction false} PageLinksAt(probes: seq<DownloadProbe>, i: nat)
    requires i < |probes|
    ensures PageLinks(probes)[i] == LinksOf(probes[i])
  {
    var n := |probes| - 1;
    if i < n {
      PageLinksAt(probes[..n], i);
      assert probes[..n][i] == probes[i];
    }
  }

  /** A download page counts as reached when it has a download link; a page with none ends the probing like a blank watch page. */
  function Reach(p: DownloadProbe): Probe {
    match p
    case Gone => Missing
    case Served(hrefs) => if DownloadLinks(hrefs) == [] then Blank else Reached
    case Fails => Raised
  }

  /** The download probing seen as a probing of reached and unreached ordinals. */
  function Reachability(probes: seq<DownloadProbe>): (r: seq<Probe>)
    ensures |r| == |probes|
  {
    if probes == [] then [] else Reachability(probes[..|probes| - 1]) + [Reach(probes[|probes| - 1])]
  }

  lemma {:induction false} ReachabilityAt(probes: seq<DownloadProbe>, i: nat)
    requires i < |probes|
    ensures Reachability(probes)[i] == Reach(probes[i])
  {
    var n := |probes| - 1;
    if i < n {
      ReachabilityAt(probes[..n], i);
      assert probes[..n][i] == probes[i];
    }
  }

  /** The two qualities a download link is filed under. */
  datatype Quality = Sd | Hd

  /**
   * Whether link `l` is filed under `q`: "(SD)" wins over "(HD)", as the
   * `if`/`elif` of the classification loop does.
   */
  predicate HasQuality(l: string, q: Quality) {
    match q
    case Sd => Contains(l, SD_TAG)
    case Hd => !Contains(l, SD_TAG) && Contains(l, HD_TAG)
  }

  predicate IsTemp(l: string) {
    Contains(l, TEMP_TAG)
  }

  /** The last link filed under `q`. */
  function LastOf(links: seq<string>, q: Quality): (r: Option<string>)
  {
    if links == [] then None
    else if HasQuality(links[|links| - 1], q) then Some(links[|links| - 1])
    else LastOf(links[..|links| - 1], q)
  }

  /** `LastOf` finds nothing exactly when no link is filed under `q`, and otherwise a link after which none is. */
  lemma {:induction false} LastOfMeaning(links: seq<string>, q: Quality)
    ensures var r := LastOf(links, q);
      && (r.None? <==> forall i | 0 <= i < |links| :: !HasQuality(links[i], q))
      && (r.Some? ==> exists i | 0 <= i < |links| ::
            (links[i] == r.value && HasQuality(r.value, q) && forall j | i < j < |links| :: !HasQuality(links[j], q)))
  {
    if links != [] && !HasQuality(links[|links| - 1], q) {
      var front := links[..|links| - 1];
      LastOfMeaning(front, q);
      assert forall i | 0 <= i < |front| :: front[i] == links[i];
    }
  }

  /** Whether some link satisfies `IsTemp`. */
  function AnyTemp(links: seq<string>): (b: bool)
    ensures b <==> exists i | 0 <= i < |links| :: IsTemp(links[i])
  {
    if links == [] then false
    else
      assert forall i | 0 <= i < |links| - 1 :: links[..|links| - 1][i] == links[i];
      IsTemp(links[|links| - 1]) || AnyTemp(links[..|links| - 1])
  }

  function AsPy(o: Option<string>): PyValue {
    if o.Some? then PyStr(o.value) else PyNone
  }

  /** The record built for ordinal `episode` from its download links. */
  function Classified(malId: PyValue, episode: int, links: seq<string>): DownloadRecord {
    DownloadRecord(malId, PyInt(episode), AsPy(LastOf(links, Sd)), AsPy(LastOf(links, Hd)), PyBool(AnyTemp(links)))
  }

  /**
   * What a classified record says: `sd` is the last link containing "(SD)"
   * (None when there is none), `hd` the last one containing "(HD)" but not
   * "(SD)", and `temp` is True exactly when some link contains "mp4_temp".
   */
  lemma ClassifiedMeaning(malId: PyValue, episode: int, links: seq<string>)
    ensures var rec := Classified(malId, episode, links);
      && rec.malId == malId && rec.episode == PyInt(episode)
      && (rec.sd == PyNone <==> forall i | 0 <= i < |links| :: !HasQuality(links[i], Sd))
      && (rec.sd.PyStr? ==> exists i | 0 <= i < |links| ::
            (links[i] == rec.sd.s && HasQuality(links[i], Sd) && forall j | i < j < |links| :: !HasQuality(links[j], Sd)))
      && (rec.hd == PyNone <==> forall i | 0 <= i < |links| :: !HasQuality(links[i], Hd))
      && (rec.hd.PyStr? ==> exists i | 0 <= i < |links| ::
            (links[i] == rec.hd.s && HasQuality(links[i], Hd) && forall j | i < j < |links| :: !HasQuality(links[j], Hd)))
      && rec.temp == PyBool(exists i | 0 <= i < |links| :: IsTemp(links[i]))
  {
    LastOfMeaning(links, Sd);
    LastOfMeaning(links, Hd);
  }

  /** The classification loop over one page's download links. */
  method ClassifyLinks(malId: PyValue, episode: int, links: seq<string>) returns (rec: DownloadRecord)
    ensures rec == Classified(malId, episode, links)
  {
    var sd := PyNone;
    var hd := PyNone;
    var temp := false;
    var j := 0;
    while j < |links|
      invariant 0 <= j <= |links|
      invariant sd == AsPy(LastOf(links[..j], Sd))
      invariant hd == AsPy(LastOf(links[..j], Hd))
      invariant temp == AnyTemp(links[..j])
    {
      var link := links[j];
      assert links[..j + 1][..j] == links[..j];
      if Contains(link, SD_TAG) {
        sd := PyStr(link);
      } else if Contains(link, HD_TAG) {
        hd := PyStr(link);
      }
      if Contains(link, TEMP_TAG) {
        temp := true;
      }
      j := j + 1;
    }
    assert links[..j] == links;
    rec := DownloadRecord(malId, PyInt(episode), sd, hd, PyBool(temp));
  }

  /** The records of ordinals `first .. first + n - 1`, in order. */
  function DownloadEntries(malId: PyValue, probes: seq<DownloadProbe>, first: nat, n: nat): (r: seq<DownloadRecord>)
    ensures |r| == n
  {
    if n == 0 then []
    else DownloadEntries(malId, probes, first, n - 1) + [Classified(malId, first + n - 1, LinksAt(probes, first + n - 1))]
  }

  lemma DownloadEntriesStep(malId: PyValue, probes: seq<DownloadProbe>, first: nat, n: nat, i: nat, rec: DownloadRecord)
    requires i == first + n && rec == Classified(malId, i, LinksAt(probes, i))
    ensures DownloadEntries(malId, probes, first, n) + [rec] == DownloadEntries(malId, probes, first, n + 1)
  {
  }

  /** How ordinal `i` of the download probing is classified. */
  lemma ReachAt(probes: seq<DownloadProbe>, i: nat)
    ensures i >= |probes| || probes[i].Gone? ==> ProbeAt(Reachability(probes), i) == Missing
    ensures i < |probes| && probes[i].Fails? ==> ProbeAt(Reachability(probes), i) == Raised
    ensures i < |probes| && probes[i].Served? ==>
      && LinksAt(probes, i) == DownloadLinks(probes[i].hrefs)
      && ProbeAt(Reachability(probes), i) == (if DownloadLinks(probes[i].hrefs) == [] then Blank else Reached)
  {
    if i < |probes| {
      ReachabilityAt(probes, i);
      PageLinksAt(probes, i);
    }
  }

  /** What `get_episodes_download_links_from_af` returns. */
  function DownloadResult(malId: PyValue, probes: seq<DownloadProbe>): seq<DownloadRecord> {
    var reach := Reachability(probes);
    DownloadEntries(malId, probes, FirstOrdinal(reach), RunLength(reach))
  }

  /**
   * One pass of the `for i in range(1000)` loop of
   * `get_episodes_download_links_from_af`: whether the loop stops at
   * ordinal `i` and, when the page has download links, the record built
   * from them.
   */
  method ProbeDownloadPage(malId: PyValue, probes: seq<DownloadProbe>, i: nat) returns (stop: bool, rec: Option<DownloadRecord>)
    ensures stop <==> ProbeAt(Reachability(probes), i) == Raised || (i != 0 && ProbeAt(Reachability(probes), i) != Reached)
    ensures rec.Some? <==> ProbeAt(Reachability(probes), i) == Reached
    ensures rec.Some? ==> rec.value == Classified(malId, i, LinksAt(probes, i))
  {
    var outcome := if i < |probes| then probes[i] else Gone;
    ReachAt(probes, i);
    rec := None;
    match outcome
    case Gone =>
      stop := i != 0;
    case Fails =>
      stop := true;
    case Served(hrefs) =>
      var links := DownloadLinks(hrefs);
      stop := links == [] && i != 0;
      if links != [] {
        var r := ClassifyLinks(malId, i, links);
        rec := Some(r);
      }
  }

  /**
   * `get_episodes_download_links_from_af(anime_name, mal_id)`, where
   * `probes[i]` is what `{url}{anime_name}/{i}` answered. The ordinals
   * collected obey `ProbingShape` for `Reachability(probes)`.
   */
  method DownloadLinksOf(malId: PyValue, probes: seq<DownloadProbe>) returns (results: seq<DownloadRecord>)
    ensures results == DownloadResult(malId, probes)
  {
    ghost var reach := Reachability(probes);
    ghost var n: nat := 0;
    results := [];
    var i := 0;
    while i < MAX_EPISODES
      invariant 0 <= i <= MAX_EPISODES
      invariant DownloadsSoFar(malId, probes, reach, results, n, i)
    {
      var stop, rec := ProbeDownloadPage(malId, probes, i);
      if stop {
        DownloadsDone(malId, probes, reach, results, n, i);
        break;
      }
      DownloadsStep(malId, probes, reach, results, n, i, rec);
      if rec.Some? {
        results := results + [rec.value];
        n := n + 1;
      }
      i := i + 1;
    }
    if i == MAX_EPISODES {
      DownloadsDone(malId, probes, reach, results, n, i);
    }
  }

  /** The state of the probing loop before ordinal `i`: the `n` records collected so far. */
  predicate DownloadsSoFar(malId: PyValue, probes: seq<DownloadProbe>, reach: seq<Probe>, results: seq<DownloadRecord>, n: nat, i: nat) {
    && reach == Reachability(probes)
    && results == DownloadEntries(malId, probes, FirstOrdinal(reach), n)
    && Collecting(reach, FirstOrdinal(reach), n, i)
  }

  lemma DownloadsStep(malId: PyValue, probes: seq<DownloadProbe>, reach: seq<Probe>, results: seq<DownloadRecord>, n: nat, i: nat,
                      rec: Option<DownloadRecord>)
    requires i < MAX_EPISODES && DownloadsSoFar(malId, probes, reach, results, n, i)
    requires ProbeAt(Reachability(probes), i) == Reached || (i == 0 && ProbeAt(Reachability(probes), i) != Raised)
    requires rec.Some? <==> ProbeAt(Reachability(probes), i) == Reached
    requires rec.Some? ==> rec.value == Classified(malId, i, LinksAt(probes, i))
    ensures rec.Some? ==> DownloadsSoFar(malId, probes, reach, results + [rec.value], n + 1, i + 1)
    ensures rec.None? ==> DownloadsSoFar(malId, probes, reach, results, n, i + 1)
  {
    var s := FirstOrdinal(reach);
    if rec.Some? {
      RunAdvance(reach, s, n, i);
      DownloadEntriesStep(malId, probes, s, n, i, rec.value);
    } else {
      RunSkip(reach, s, n, i);
    }
  }

  lemma DownloadsDone(malId: PyValue, probes: seq<DownloadProbe>, reach: seq<Probe>, results: seq<DownloadRecord>, n: nat, i: nat)
    requires i <= MAX_EPISODES && DownloadsSoFar(malId, probes, reach, results, n, i)
    requires i == MAX_EPISODES || ProbeAt(Reachability(probes), i) == Raised || (i != 0 && ProbeAt(Reachability(probes), i) != Reached)
    ensures results == DownloadResult(malId, probes)
  {
    RunStop(reach, FirstOrdinal(reach), n, i);
  }

  // ---------------------------------------------------------------- anime names

  /** `get_anime_name_from_af_url`: the last `/` segment with every "-todos-os-episodios" removed. */
  function AnimeNameFromUrl(afLink: string): string {
    ReplaceAll(LastSegment(afLink, '/'), ALL_EPISODES_SUFFIX, "")
  }

  /** The characters of "-todos-os-episodios", which `rstrip` takes as a set, not as a suffix. */
  const SUFFIX_CHARS: set<char> := {'-', 't', 'o', 'd', 's', 'e', 'p', 'i'}

  lemma SuffixCharsCoverSuffix()
    ensures forall i | 0 <= i < |ALL_EPISODES_SUFFIX| :: ALL_EPISODES_SUFFIX[i] in SUFFIX_CHARS
    ensures forall c | c in SUFFIX_CHARS :: c in ALL_EPISODES_SUFFIX
  {
    assert ALL_EPISODES_SUFFIX[0] == '-' && ALL_EPISODES_SUFFIX[1] == 't' && ALL_EPISODES_SUFFIX[2] == 'o';
    assert ALL_EPISODES_SUFFIX[3] == 'd' && ALL_EPISODES_SUFFIX[5] == 's' && ALL_EPISODES_SUFFIX[10] == 'e';
    assert ALL_EPISODES_SUFFIX[11] == 'p' && ALL_EPISODES_SUFFIX[12] == 'i';
  }

  /** The name `extract_custom_anime_from_af` computes as written: `split('/')[-1].rstrip(...)`. */
  function CustomNameAsWritten(url: string): string {
    RStripChars(LastSegment(url, '/'), SUFFIX_CHARS)
  }

  lemma {:induction false} LastSegmentAfterSlash(p: string, s: string)
    requires '/' !in s
    ensures LastSegment(p + "/" + s, '/') == s
    decreases |s|
  {
    var u := p + "/" + s;
    if s == [] {
      assert u[|u| - 1] == '/';
    } else {
      assert u[|u| - 1] == s[|s| - 1];
      assert u[..|u| - 1] == p + "/" + s[..|s| - 1];
      LastSegmentAfterSlash(p, s[..|s| - 1]);
    }
  }

  /** A name in which the suffix does not start before its final occurrence loses exactly that occurrence. */
  lemma {:induction false} ReplaceRemovesFinalSuffix(name: string, suffix: string)
    requires |suffix| > 0 && !Contains(name + suffix[..|suffix| - 1], suffix)
    ensures ReplaceAll(name + suffix, suffix, "") == name
    decreases |name|
  {
    if name == [] {
      assert StartsWith(suffix, suffix);
      assert suffix[|suffix|..] == [];
    } else {
      var u := name + suffix;
      var v := name + suffix[..|suffix| - 1];
      assert u[..|suffix|] == v[..|suffix|];
      assert u[1..] == name[1..] + suffix;
      assert v[1..] == name[1..] + suffix[..|suffix| - 1];
      ReplaceRemovesFinalSuffix(name[1..], suffix);
    }
  }

  /**
   * Corrected name extraction: for an AnimeFire URL `{prefix}/{name}-todos-os-episodios`
   * whose name holds no `/` and in which the suffix does not start early,
   * `get_anime_name_from_af_url` gives back exactly the name.
   */
  lemma AnimeNameFromUrlRecoversName(prefix: string, name: string)
    requires '/' !in name
    requires !Contains(name + ALL_EPISODES_SUFFIX[..|ALL_EPISODES_SUFFIX| - 1], ALL_EPISODES_SUFFIX)
    ensures AnimeNameFromUrl(prefix + "/" + name + ALL_EPISODES_SUFFIX) == name
  {
    assert prefix + "/" + name + ALL_EPISODES_SUFFIX == prefix + "/" + (name + ALL_EPISODES_SUFFIX);
    LastSegmentAfterSlash(prefix, name + ALL_EPISODES_SUFFIX);
    ReplaceRemovesFinalSuffix(name, ALL_EPISODES_SUFFIX);
  }

  /** `t` occurs in `s` at position `i`. */
  predicate OccursAt(s: string, t: string, i: int) {
    0 <= i && i + |t| <= |s| && s[i..i + |t|] == t
  }

  /** Where `t` occurs at no position of `s`, `t in s` is false. */
  lemma {:induction false} NoOccurrence(s: string, t: string)
    requires forall i :: !OccursAt(s, t, i)
    ensures !Contains(s, t)
    decreases |s|
  {
    assert !OccursAt(s, t, 0);
    if |s| > 0 {
      forall i
        ensures !OccursAt(s[1..], t, i)
      {
        assert !OccursAt(s, t, i + 1);
        if 0 <= i && i + |t| <= |s[1..]| {
          assert s[1..][i..i + |t|] == s[i + 1..i + 1 + |t|];
        }
      }
      NoOccurrence(s[1..], t);
    }
  }

  /** A name without a '-' cannot hold the start of the suffix, which begins with '-'. */
  lemma DashFreeNameHasNoEarlySuffix(name: string)
    requires '-' !in name
    ensures !Contains(name + ALL_EPISODES_SUFFIX[..|ALL_EPISODES_SUFFIX| - 1], ALL_EPISODES_SUFFIX)
  {
    var v := name + ALL_EPISODES_SUFFIX[..|ALL_EPISODES_SUFFIX| - 1];
    forall i
      ensures !OccursAt(v, ALL_EPISODES_SUFFIX, i)
    {
      if 0 <= i < |name| && i + |ALL_EPISODES_SUFFIX| <= |v| {
        assert v[i] == name[i] != '-';
        assert v[i..i + |ALL_EPISODES_SUFFIX|][0] == v[i];
      }
    }
    NoOccurrence(v, ALL_EPISODES_SUFFIX);
  }

  /** Stripping a tail made only of stripped characters is stripping what comes before it. */
  lemma {:induction false} RStripPastTail(s: string, t: string, chars: set<char>)
    requires forall i | 0 <= i < |t| :: t[i] in chars
    ensures RStripChars(s + t, chars) == RStripChars(s, chars)
    decreases |t|
  {
    if t == [] {
      assert s + t == s;
    } else {
      assert (s + t)[..|s + t| - 1] == s + t[..|t| - 1];
      RStripPastTail(s, t[..|t| - 1], chars);
    }
  }

  lemma {:induction false} LastSegmentWithoutSlash(s: string)
    requires '/' !in s
    ensures LastSegment(s, '/') == s
    decreases |s|
  {
    if s != [] {
      assert s[..|s| - 1] + [s[|s| - 1]] == s;
      LastSegmentWithoutSlash(s[..|s| - 1]);
    }
  }

  /**
   * `rstrip` strips a character set: for "naruto-todos-os-episodios" the
   * strip also eats the "to" of "naruto", while `get_anime_name_from_af_url`
   * gives "naruto".
   */
  lemma CustomNameAsWrittenTruncates()
    ensures CustomNameAsWritten("naruto" + ALL_EPISODES_SUFFIX) == "naru"
    ensures AnimeNameFromUrl("naruto" + ALL_EPISODES_SUFFIX) == "naruto"
  {
    var name := "naruto";
    NoSlashIn(name + ALL_EPISODES_SUFFIX);
    LastSegmentWithoutSlash(name + ALL_EPISODES_SUFFIX);
    SuffixCharsCoverSuffix();
    RStripPastTail(name, ALL_EPISODES_SUFFIX, SUFFIX_CHARS);
    NarutoStripped();
    DashFreeNameHasNoEarlySuffix(name);
    ReplaceRemovesFinalSuffix(name, ALL_EPISODES_SUFFIX);
  }

  lemma NoSlashIn(url: string)
    requires url == "naruto" + ALL_EPISODES_SUFFIX
    ensures '/' !in url
  {
  }

  lemma NarutoStripped()
    ensures RStripChars("naruto", SUFFIX_CHARS) == "naru"
  {
    assert "naruto"[..5] == "narut" && "narut"[..4] == "naru";
    assert RStripChars("naru", SUFFIX_CHARS) == "naru";
  }

  // ---------------------------------------------------------------- assembling the results

  /** The releases whose title the MAL search resolved, in listing order. */
  function Resolved(releases: seq<(string, string)>, search: string -> int): (r: seq<(string, string)>)
    ensures |r| <= |releases|
    ensures forall p | p in r :: p in releases && search(p.0) != BAD_ID
  {
    if releases == [] then []
    else
      var a := releases[|releases| - 1];
      Resolved(releases[..|releases| - 1], search) + (if search(a.0) != BAD_ID then [a] else [])
  }

  /** The truthy metadata dicts, in order. */
  function Present(metas: seq<Option<Dict>>): (r: seq<Dict>)
    ensures |r| <= |metas|
    ensures forall d | d in r :: d != map[]
  {
    if metas == [] then []
    else
      var m := metas[|metas| - 1];
      Present(metas[..|metas| - 1]) + (if m.Some? && m.value != map[] then [m.value] else [])
  }

  /** The watch lists fetched for the resolved releases, in order. */
  function WatchListsFor(res: seq<(string, string)>, search: string -> int, watchSite: string -> seq<Probe>)
    : (r: seq<Option<seq<WatchRecord>>>)
    ensures |r| == |res|
  {
    if res == [] then []
    else
      var a := res[|res| - 1];
      WatchListsFor(res[..|res| - 1], search, watchSite) + [WatchResult(Some(a.1), PyInt(search(a.0)), watchSite(a.1))]
  }

  /** The download lists fetched for the resolved releases, in order. */
  function DownloadListsFor(res: seq<(string, string)>, search: string -> int, downloadSite: string -> seq<DownloadProbe>)
    : (r: seq<seq<DownloadRecord>>)
    ensures |r| == |res|
  {
    if res == [] then []
    else
      var a := res[|res| - 1];
      DownloadListsFor(res[..|res| - 1], search, downloadSite)
        + [DownloadResult(PyInt(search(a.0)), downloadSite(AnimeNameFromUrl(a.1)))]
  }

  /** The MAL ids of the resolved releases, in order. */
  function IdsFor(res: seq<(string, string)>, search: string -> int): (r: seq<int>)
    ensures |r| == |res|
  {
    seq(|res|, k requires 0 <= k < |res| => search(res[k].0))
  }

  /**
   * The collecting loops of `extract_releasing_animes_from_af`, given the
   * release listing: `search` is the MAL search by title, `watchSite` what
   * the watch pages of a URL answer, `downloadSite` what the download pages
   * of a name answer and `jikan` the metadata fetched for an id. One watch
   * list and one download list per resolved title, so the two have the same
   * length; metadata only where the fetch gave a dict, so it may be shorter.
   */
  method AssembleReleases(releases: seq<(string, string)>, search: string -> int,
                          watchSite: string -> seq<Probe>, downloadSite: string -> seq<DownloadProbe>,
                          jikan: int -> Option<Dict>)
    returns (watchLinks: seq<Option<seq<WatchRecord>>>, downloadLinks: seq<seq<DownloadRecord>>, metadata: seq<Dict>)
    ensures watchLinks == WatchListsFor(Resolved(releases, search), search, watchSite)
    ensures downloadLinks == DownloadListsFor(Resolved(releases, search), search, downloadSite)
    ensures metadata == Present(Fetched(IdsFor(Resolved(releases, search), search), jikan))
    ensures |watchLinks| == |downloadLinks| == |Resolved(releases, search)| >= |metadata|
  {
    var animeIds: seq<int> := [];
    watchLinks := [];
    downloadLinks := [];
    var n := 0;
    while n < |releases|
      invariant 0 <= n <= |releases|
      invariant animeIds == IdsFor(Resolved(releases[..n], search), search)
      invariant watchLinks == WatchListsFor(Resolved(releases[..n], search), search, watchSite)
      invariant downloadLinks == DownloadListsFor(Resolved(releases[..n], search), search, downloadSite)
    {
      var anime := releases[n];
      ghost var res := Resolved(releases[..n], search);
      ResolvedStep(releases, n, search);
      var animeId := search(anime.0);
      if animeId != BAD_ID {
        assert Resolved(releases[..n + 1], search) == res + [anime];
        ListsStep(res, anime, search, watchSite, downloadSite);
        animeIds := animeIds + [animeId];
        var watch := WatchLinks(Some(anime.1), PyInt(animeId), watchSite(anime.1));
        watchLinks := watchLinks + [watch];
        var animeName := AnimeNameFromUrl(anime.1);
        var download := DownloadLinksOf(PyInt(animeId), downloadSite(animeName));
        downloadLinks := downloadLinks + [download];
      } else {
        assert Resolved(releases[..n + 1], search) == res;
      }
      n := n + 1;
    }
    assert releases[..n] == releases;
    metadata := FetchMetadata(animeIds, jikan);
  }

  /** `get_anime_resource_from_jikan_v4` for each id, in order. */
  function Fetched(ids: seq<int>, jikan: int -> Option<Dict>): (r: seq<Option<Dict>>)
    ensures |r| == |ids|
  {
    seq(|ids|, k requires 0 <= k < |ids| => jikan(ids[k]))
  }

  /** The metadata loop: keeps each fetched dict that is truthy. */
  method FetchMetadata(animeIds: seq<int>, jikan: int -> Option<Dict>) returns (metadata: seq<Dict>)
    ensures metadata == Present(Fetched(animeIds, jikan))
  {
    ghost var fetched := Fetched(animeIds, jikan);
    metadata := [];
    var m := 0;
    while m < |animeIds|
      invariant 0 <= m <= |animeIds|
      invariant metadata == Present(fetched[..m])
    {
      var data := jikan(animeIds[m]);
      assert fetched[..m + 1][..m] == fetched[..m];
      if data.Some? && data.value != map[] {
        metadata := metadata + [data.value];
      }
      m := m + 1;
    }
    assert fetched[..m] == fetched;
  }

  lemma ListsStep(res: seq<(string, string)>, a: (string, string), search: string -> int,
                  watchSite: string -> seq<Probe>, downloadSite: string -> seq<DownloadProbe>)
    ensures IdsFor(res + [a], search) == IdsFor(res, search) + [search(a.0)]
    ensures WatchListsFor(res + [a], search, watchSite)
      == WatchListsFor(res, search, watchSite) + [WatchResult(Some(a.1), PyInt(search(a.0)), watchSite(a.1))]
    ensures DownloadListsFor(res + [a], search, downloadSite)
      == DownloadListsFor(res, search, downloadSite) + [DownloadResult(PyInt(search(a.0)), downloadSite(AnimeNameFromUrl(a.1)))]
  {
    assert (res + [a])[..|res|] == res;
  }

  lemma ResolvedStep(releases: seq<(string, string)>, n: int, search: string -> int)
    requires 0 <= n < |releases|
    ensures Resolved(releases[..n + 1], search)
      == Resolved(releases[..n], search) + (if search(releases[n].0) != BAD_ID then [releases[n]] else [])
  {
    assert releases[..n + 1][..n] == releases[..n];
  }

  /**
   * `extract_custom_anime_from_af(url)` with the name cut as
   * `get_anime_name_from_af_url` cuts it: ValueError when MAL does not know
   * the name, else the watch links, the download links and the metadata.
   */
  method ExtractCustom(url: string, search: string -> int, watchSite: string -> seq<Probe>,
                       downloadSite: string -> seq<DownloadProbe>, jikan: int -> Option<Dict>)
    returns (r: Result<(Option<seq<WatchRecord>>, seq<DownloadRecord>, Option<Dict>), PyError>)
    ensures r.Err? <==> search(AnimeNameFromUrl(url)) == BAD_ID
    ensures r.Err? ==> r.error == ValueError
    ensures r.Ok? ==> var id := search(AnimeNameFromUrl(url));
      r.value == (WatchResult(Some(url), PyInt(id), watchSite(url)),
                  DownloadResult(PyInt(id), downloadSite(AnimeNameFromUrl(url))), jikan(id))
  {
    var name := AnimeNameFromUrl(url);
    var malId := search(name);
    if malId == BAD_ID {
      return Err(ValueError);
    }
    var data := jikan(malId);
    var download := DownloadLinksOf(PyInt(malId), downloadSite(name));
    var watch := WatchLinks(Some(url), PyInt(malId), watchSite(url));
    r := Ok((watch, download, data));
  }
}
