/**
 * `Telena.add_anime_to_telegram` of `shared_components/api/bot_api/animestele_bot.py`:
 * an anime and its episodes are posted to a Telegram chat, each unless its
 * `added_to` marker already says it is on Telegram, and after each posted
 * message the markers are extended with `#telegram=<id>`. The sender is an
 * abstract channel whose answers are given as a script: the k-th message the
 * method hands over gets the k-th outcome.
 */
module TelegramPublish {
  import opened Wrappers
  import opened Text
  import opened PyValues
  import opened DbStructs
  import opened LocalDatabase

  // ---------------------------------------------------------------- the sender

  /**
   * What `await self.write_message(...)` gives: the sent message with its id;
   * an awaited send that resolved to `None`, whose missing `message_id` then
   * raises AttributeError after the channel marker has been extended; or an
   * exception raised before that. The last case includes a send error that
   * `write_message` caught itself: it then returns `None`, and `await None`
   * raises TypeError at once.
   */
  datatype SendOutcome = Delivered(messageId: int) | NoMessage | Raised

  /** The answer to the k-th send: the script's entry, and an exception once the script is exhausted. */
  function OutcomeAt(outs: seq<SendOutcome>, k: nat): SendOutcome {
    if k < |outs| then outs[k] else Raised
  }

  // ---------------------------------------------------------------- the markers

  /** The tag a marker carries once the entity is on Telegram. */
  const TelegramTag: string := "#telegram"

  /** `'#telegram' in added_to`: the entity has already been posted. */
  predicate Published(marker: string) {
    exists k | 0 <= k <= |marker| :: TagAt(marker, k)
  }

  /** The tag occurs in `marker` at position `k`. */
  predicate TagAt(marker: string, k: int) {
    0 <= k && k + |TelegramTag| <= |marker| && marker[k..k + |TelegramTag|] == TelegramTag
  }

  /** `"#none"` becomes `#telegram=<v>`; any other marker gets `,#telegram=<v>` appended. */
  function AddMarker(marker: string, v: string): string {
    if marker == "#none" then "#telegram=" + v else marker + "," + "#telegram=" + v
  }

  /** The placeholder is replaced; any other marker is kept in front, with a comma, and the new entry ends it. */
  lemma AddMarkerShape(marker: string, v: string)
    ensures marker == "#none" ==> AddMarker(marker, v) == "#telegram=" + v
    ensures marker != "#none" ==> StartsWith(AddMarker(marker, v), marker + ",") && EndsWith(AddMarker(marker, v), "#telegram=" + v)
  {
    var r := AddMarker(marker, v);
    if marker != "#none" {
      assert r[..|marker + ","|] == marker + ",";
      assert r[|r| - |"#telegram=" + v|..] == "#telegram=" + v;
    }
  }

  /** After a marker is added, the entity counts as published, so a later call skips it. */
  lemma AddMarkerPublishes(marker: string, v: string)
    ensures Published(AddMarker(marker, v))
  {
    var r, k := AddMarker(marker, v), if marker == "#none" then 0 else |marker| + 1;
    assert r == r[..k] + "#telegram=" + v;
    assert r[k..k + |TelegramTag|] == TelegramTag;
    assert TagAt(r, k);
  }

  // ---------------------------------------------------------------- the messages

  /** The text of a message: one `Label: value` line per field, each ended by '\n'. */
  function Labelled(labels: seq<string>, values: seq<string>): (ls: seq<string>)
    requires |labels| == |values|
    ensures |ls| == |labels| && forall i | 0 <= i < |labels| :: ls[i] == labels[i] + ": " + values[i]
  {
    seq(|labels|, i requires 0 <= i < |labels| => labels[i] + ": " + values[i])
  }

  const AnimeLabels: seq<string> := [
    "Anime ID", "Title", "English Title", "Japanese Title", "Type", "Episodes", "Status", "Airing",
    "Aired", "Rating", "Duration", "Season", "Year", "Studios", "Producers", "Synopsis"]

  /** The anime's fields in message order, as f-strings render them. */
  function AnimeFields(a: Anime): (vs: seq<string>)
    ensures |vs| == |AnimeLabels|
  {
    [Render(a.malId), Render(a.title), Render(a.titleEnglish), Render(a.titleJapanese),
     Render(a.animeType), Render(a.episodes), Render(a.status), Render(a.airing), Render(a.aired),
     Render(a.rating), Render(a.duration), Render(a.season), Render(a.year), Render(a.studios),
     Render(a.producers), Render(a.synopsis)]
  }

  /** The text posted for an anime. */
  function AnimeMessage(a: Anime): string {
    Unlines(Labelled(AnimeLabels, AnimeFields(a)))
  }

  const EpisodeLabels: seq<string> := [
    "Episode ID", "Anime ID", "Anime MAL ID", "Episode Number", "Watch Link", "Download Link HD",
    "Download Link SD", "Release Date", "Temp", "Added to"]

  /** What the episode loop reads from an episode object. */
  datatype EpisodeView = EpisodeView(episodeId: PyValue, record: Episode, releaseDate: PyValue, addedTo: string)

  function EpisodeFields(e: EpisodeView): (vs: seq<string>)
    ensures |vs| == |EpisodeLabels|
  {
    [Render(e.episodeId), Render(e.record.animeId), Render(e.record.malId), Render(e.record.episodeNumber),
     Render(e.record.watchLink), Render(e.record.downloadLinkHd), Render(e.record.downloadLinkSd),
     Render(e.releaseDate), Render(e.record.temp), e.addedTo]
  }

  /** The text posted for an episode. */
  function EpisodeMessage(e: EpisodeView): string {
    Unlines(Labelled(EpisodeLabels, EpisodeFields(e)))
  }

  /** Read back line by line, a message holds one `Label: value\n` line per field, in order. */
  lemma MessageLayout(labels: seq<string>, values: seq<string>)
    requires |labels| == |values|
    requires forall i | 0 <= i < |labels| :: '\n' !in labels[i] && '\n' !in values[i]
    ensures |Lines(Unlines(Labelled(labels, values)))| == |labels|
    ensures forall i | 0 <= i < |labels| :: Lines(Unlines(Labelled(labels, values)))[i] == labels[i] + ": " + values[i] + "\n"
  {
    var ls := Labelled(labels, values);
    forall i | 0 <= i < |ls|
      ensures ls[i] == labels[i] + ": " + values[i] && '\n' !in ls[i]
    {
      assert forall j | 0 <= j < |ls[i]| :: ls[i][j] == (if j < |labels[i]| then labels[i][j]
        else if j < |labels[i]| + 2 then ": "[j - |labels[i]|] else values[i][j - |labels[i]| - 2]);
    }
    LinesOfUnlines(ls);
  }

  /** The anime message has sixteen lines, one per field, when no field renders with a line break. */
  lemma AnimeMessageLayout(a: Anime)
    requires forall i | 0 <= i < |AnimeFields(a)| :: '\n' !in AnimeFields(a)[i]
    ensures |Lines(AnimeMessage(a))| == 16
    ensures forall i | 0 <= i < 16 :: Lines(AnimeMessage(a))[i] == AnimeLabels[i] + ": " + AnimeFields(a)[i] + "\n"
  {
    MessageLayout(AnimeLabels, AnimeFields(a));
  }

  /** The episode message has ten lines, one per field, when no field renders with a line break. */
  lemma EpisodeMessageLayout(e: EpisodeView)
    requires forall i | 0 <= i < |EpisodeFields(e)| :: '\n' !in EpisodeFields(e)[i]
    ensures |Lines(EpisodeMessage(e))| == 10
    ensures forall i | 0 <= i < 10 :: Lines(EpisodeMessage(e))[i] == EpisodeLabels[i] + ": " + EpisodeFields(e)[i] + "\n"
  {
    MessageLayout(EpisodeLabels, EpisodeFields(e));
  }

  // ---------------------------------------------------------------- the run, on values

  /** The episode loop: the markers it leaves, the episodes whose message it sends, and whether a send failed. */
  datatype EpisodeRun = EpisodeRun(markers: seq<string>, sent: seq<EpisodeView>, failed: bool)

  /** The texts of the messages for `vs`, in order. */
  function Messages(vs: seq<EpisodeView>): (ts: seq<string>)
    ensures |ts| == |vs| && forall i | 0 <= i < |vs| :: ts[i] == EpisodeMessage(vs[i])
  {
    seq(|vs|, i requires 0 <= i < |vs| => EpisodeMessage(vs[i]))
  }

  lemma MessagesAppend(vs: seq<EpisodeView>, v: EpisodeView)
    ensures Messages(vs + [v]) == Messages(vs) + [EpisodeMessage(v)]
  {
    assert forall i | 0 <= i < |vs| :: (vs + [v])[i] == vs[i];
  }

  /**
   * Lines 165-197 over the episodes `eps`, whose sends take the outcomes from
   * position `first` on: a published episode is skipped, a delivered one gets
   * its marker, and the first failed send ends the loop.
   */
  function EpisodesRun(eps: seq<EpisodeView>, outs: seq<SendOutcome>, first: nat): (r: EpisodeRun)
    ensures |r.markers| == |eps|
  {
    if eps == [] then EpisodeRun([], [], false)
    else
      var prev := EpisodesRun(eps[..|eps| - 1], outs, first);
      var e := eps[|eps| - 1];
      if prev.failed || Published(e.addedTo) then EpisodeRun(prev.markers + [e.addedTo], prev.sent, prev.failed)
      else
        var sent := prev.sent + [e];
        match OutcomeAt(outs, first + |prev.sent|)
        case Delivered(id) => EpisodeRun(prev.markers + [AddMarker(e.addedTo, IntToString(id))], sent, false)
        case _ => EpisodeRun(prev.markers + [e.addedTo], sent, true)
  }

  /** The markers of `eps`, untouched. */
  function Markers(eps: seq<EpisodeView>): (ms: seq<string>)
    ensures |ms| == |eps| && forall i | 0 <= i < |eps| :: ms[i] == eps[i].addedTo
  {
    seq(|eps|, i requires 0 <= i < |eps| => eps[i].addedTo)
  }

  /** What the anime object holds that the method changes: its two markers. */
  datatype AnimeView = AnimeView(record: Anime, addedTo: string, channel: string)

  /** Everything one call does: the anime's markers, the episodes' markers, the texts sent, and whether it ran to the end. */
  datatype Publication = Publication(addedTo: string, channel: string, markers: seq<string>, texts: seq<string>, completed: bool)

  /** What the anime part of a call leaves: the anime's markers, the texts sent, and whether the episodes come next. */
  datatype AnimeOutcome = AnimeOutcome(anime: AnimeView, texts: seq<string>, goOn: bool)

  /**
   * Lines 117-160 on values: an anime whose marker says Telegram is left
   * alone; otherwise its post is sent, a send that raises changes nothing,
   * one that gives no message extends only the channel marker, and a
   * delivered one extends both markers.
   */
  function AnimePost(chatId: PyValue, a: AnimeView, outs: seq<SendOutcome>): (s: AnimeOutcome)
    ensures s.anime.record == a.record
  {
    if Published(a.addedTo) then AnimeOutcome(a, [], true)
    else
      var text := AnimeMessage(a.record);
      var channel := AddMarker(a.channel, Render(chatId));
      match OutcomeAt(outs, 0)
      case Raised => AnimeOutcome(a, [text], false)
      case NoMessage => AnimeOutcome(a.(channel := channel), [text], false)
      case Delivered(id) => AnimeOutcome(a.(addedTo := AddMarker(a.addedTo, IntToString(id)), channel := channel), [text], true)
  }

  /** Lines 110-205 on values: the anime part, then, when it goes on, the episode loop with the sends after the anime's. */
  function Publish(chatId: PyValue, a: AnimeView, eps: seq<EpisodeView>, outs: seq<SendOutcome>): (p: Publication)
    ensures |p.markers| == |eps|
  {
    var s := AnimePost(chatId, a, outs);
    if !s.goOn then Publication(s.anime.addedTo, s.anime.channel, Markers(eps), s.texts, false)
    else
      var run := EpisodesRun(eps, outs, |s.texts|);
      Publication(s.anime.addedTo, s.anime.channel, run.markers, s.texts + Messages(run.sent), !run.failed)
  }

  // ---------------------------------------------------------------- what the run promises

  /** A published episode keeps its marker and adds no text. */
  lemma {:induction false} EpisodesRunSkipsPublished(eps: seq<EpisodeView>, outs: seq<SendOutcome>, first: nat, i: int)
    requires 0 <= i < |eps| && Published(eps[i].addedTo)
    ensures EpisodesRun(eps, outs, first).markers[i] == eps[i].addedTo
    decreases |eps|
  {
    if i < |eps| - 1 {
      EpisodesRunSkipsPublished(eps[..|eps| - 1], outs, first, i);
      assert eps[..|eps| - 1][i] == eps[i];
    }
  }

  /** A loop that ran to the end leaves every episode published. */
  lemma {:induction false} EpisodesRunCompletes(eps: seq<EpisodeView>, outs: seq<SendOutcome>, first: nat)
    requires !EpisodesRun(eps, outs, first).failed
    ensures forall i | 0 <= i < |eps| :: Published(EpisodesRun(eps, outs, first).markers[i])
    decreases |eps|
  {
    if eps != [] {
      var front := eps[..|eps| - 1];
      var prev, r := EpisodesRun(front, outs, first), EpisodesRun(eps, outs, first);
      EpisodesRunDoneLast(eps, outs, first);
      EpisodesRunCompletes(front, outs, first);
      forall i | 0 <= i < |eps|
        ensures Published(r.markers[i])
      {
        IndexFront(prev.markers, r.markers[|eps| - 1], i);
      }
    }
  }

  /** A run that did not fail had not failed before its last episode, which it leaves published. */
  lemma EpisodesRunDoneLast(eps: seq<EpisodeView>, outs: seq<SendOutcome>, first: nat)
    requires eps != [] && !EpisodesRun(eps, outs, first).failed
    ensures var prev, r := EpisodesRun(eps[..|eps| - 1], outs, first), EpisodesRun(eps, outs, first);
      !prev.failed && r.markers == prev.markers + [r.markers[|eps| - 1]] && Published(r.markers[|eps| - 1])
  {
    var prev, r, e := EpisodesRun(eps[..|eps| - 1], outs, first), EpisodesRun(eps, outs, first), eps[|eps| - 1];
    var out := OutcomeAt(outs, first + |prev.sent|);
    assert !prev.failed;
    if Published(e.addedTo) {
      assert r == EpisodeRun(prev.markers + [e.addedTo], prev.sent, false);
    } else {
      assert out.Delivered?;
      var m := AddMarker(e.addedTo, IntToString(out.messageId));
      assert r == EpisodeRun(prev.markers + [m], prev.sent + [e], false);
      AddMarkerPublishes(e.addedTo, IntToString(out.messageId));
    }
  }

  /** On episodes that are all published the loop sends nothing and changes nothing. */
  lemma {:induction false} EpisodesRunAllPublished(eps: seq<EpisodeView>, outs: seq<SendOutcome>, first: nat)
    requires forall i | 0 <= i < |eps| :: Published(eps[i].addedTo)
    ensures EpisodesRun(eps, outs, first) == EpisodeRun(Markers(eps), [], false)
    decreases |eps|
  {
    if eps != [] {
      var front := eps[..|eps| - 1];
      assert forall i | 0 <= i < |front| :: front[i] == eps[i];
      EpisodesRunAllPublished(front, outs, first);
      assert Markers(front) + [eps[|eps| - 1].addedTo] == Markers(eps);
    }
  }

  /**
   * The first failed send ends the loop: once the episodes up to `n` have
   * failed, the later ones add no text and keep their markers.
   */
  lemma {:induction false} EpisodesRunAfterFailure(eps: seq<EpisodeView>, outs: seq<SendOutcome>, first: nat, n: nat)
    requires n <= |eps| && EpisodesRun(eps[..n], outs, first).failed
    ensures var r, rn := EpisodesRun(eps, outs, first), EpisodesRun(eps[..n], outs, first);
      && r.failed && r.sent == rn.sent
      && (forall i | 0 <= i < n :: r.markers[i] == rn.markers[i])
      && (forall i | n <= i < |eps| :: r.markers[i] == eps[i].addedTo)
    decreases |eps|
  {
    if n < |eps| {
      var front := eps[..|eps| - 1];
      assert front[..n] == eps[..n];
      EpisodesRunAfterFailure(front, outs, first, n);
      var r, prev := EpisodesRun(eps, outs, first), EpisodesRun(front, outs, first);
      EpisodesRunFailedLast(eps, outs, first);
      forall i | 0 <= i < n
        ensures r.markers[i] == prev.markers[i]
      {
        IndexFront(prev.markers, eps[|eps| - 1].addedTo, i);
      }
      forall i | n <= i < |eps|
        ensures r.markers[i] == eps[i].addedTo
      {
        IndexFront(prev.markers, eps[|eps| - 1].addedTo, i);
        if i < |front| {
          assert prev.markers[i] == front[i].addedTo;
        }
      }
    } else {
      assert eps[..n] == eps;
    }
  }

  /** After a failure the last episode adds nothing and keeps its marker. */
  lemma EpisodesRunFailedLast(eps: seq<EpisodeView>, outs: seq<SendOutcome>, first: nat)
    requires eps != [] && EpisodesRun(eps[..|eps| - 1], outs, first).failed
    ensures var prev := EpisodesRun(eps[..|eps| - 1], outs, first);
      EpisodesRun(eps, outs, first) == EpisodeRun(prev.markers + [eps[|eps| - 1].addedTo], prev.sent, true)
  {
  }

  /** Indexing a sequence with one more element at its end. */
  lemma IndexFront<T>(a: seq<T>, x: T, i: int)
    requires 0 <= i <= |a|
    ensures (a + [x])[i] == if i < |a| then a[i] else x
  {
  }

  /** An episode that is not published and whose send does not deliver is where the loop fails. */
  lemma EpisodesRunFailsAt(eps: seq<EpisodeView>, outs: seq<SendOutcome>, first: nat, n: nat)
    requires n < |eps| && !EpisodesRun(eps[..n], outs, first).failed && !Published(eps[n].addedTo)
    requires !OutcomeAt(outs, first + |EpisodesRun(eps[..n], outs, first).sent|).Delivered?
    ensures var r := EpisodesRun(eps[..n + 1], outs, first);
      r.failed && r.sent == EpisodesRun(eps[..n], outs, first).sent + [eps[n]]
  {
    assert eps[..n + 1][..n] == eps[..n];
  }

  /** The anime is posted only when its marker does not say Telegram yet; otherwise only episodes are. */
  lemma PublishSkipsPublishedAnime(chatId: PyValue, a: AnimeView, eps: seq<EpisodeView>, outs: seq<SendOutcome>)
    requires Published(a.addedTo)
    ensures var p := Publish(chatId, a, eps, outs);
      p.addedTo == a.addedTo && p.channel == a.channel && p.texts == Messages(EpisodesRun(eps, outs, 0).sent)
  {
  }

  /**
   * A failed anime send stops the call before any episode: only the anime
   * text went out and no marker changed, except that when the send gave no
   * message the channel marker was already extended.
   */
  lemma PublishAnimeFailure(chatId: PyValue, a: AnimeView, eps: seq<EpisodeView>, outs: seq<SendOutcome>)
    requires !Published(a.addedTo) && !OutcomeAt(outs, 0).Delivered?
    ensures var p := Publish(chatId, a, eps, outs);
      && p.texts == [AnimeMessage(a.record)] && !p.completed
      && p.addedTo == a.addedTo && p.markers == Markers(eps)
      && p.channel == (if OutcomeAt(outs, 0).NoMessage? then AddMarker(a.channel, Render(chatId)) else a.channel)
  {
  }

  /** The entities as a call leaves them. */
  function AnimeAfter(a: AnimeView, p: Publication): AnimeView {
    AnimeView(a.record, p.addedTo, p.channel)
  }

  function EpisodesAfter(eps: seq<EpisodeView>, markers: seq<string>): (r: seq<EpisodeView>)
    requires |markers| == |eps|
    ensures |r| == |eps| && forall i | 0 <= i < |eps| :: r[i] == eps[i].(addedTo := markers[i])
  {
    seq(|eps|, i requires 0 <= i < |eps| => eps[i].(addedTo := markers[i]))
  }

  /**
   * Idempotence: after a call that ran to the end, a second call on what it
   * left sends nothing and changes nothing, whatever the sender would answer.
   */
  lemma SecondRunSendsNothing(chatId: PyValue, a: AnimeView, eps: seq<EpisodeView>, outs: seq<SendOutcome>, outs2: seq<SendOutcome>)
    requires Publish(chatId, a, eps, outs).completed
    ensures var p := Publish(chatId, a, eps, outs);
      var q := Publish(chatId, AnimeAfter(a, p), EpisodesAfter(eps, p.markers), outs2);
      q.texts == [] && q.completed && q.addedTo == p.addedTo && q.channel == p.channel && q.markers == p.markers
  {
    var p := Publish(chatId, a, eps, outs);
    var first := if Published(a.addedTo) then 0 else 1;
    assert p.markers == EpisodesRun(eps, outs, first).markers;
    if !Published(a.addedTo) {
      AddMarkerPublishes(a.addedTo, IntToString(OutcomeAt(outs, 0).messageId));
    }
    EpisodesRunCompletes(eps, outs, first);
    var eps' := EpisodesAfter(eps, p.markers);
    EpisodesRunAllPublished(eps', outs2, 0);
    assert Markers(eps') == p.markers;
  }

  // ---------------------------------------------------------------- the method

  function AnimeViewOf(anime: AnimeEntry): AnimeView
    reads anime
  {
    AnimeView(anime.record, anime.addedTo, anime.channel)
  }

  function ViewOf(e: EpisodeEntry): EpisodeView
    reads e
  {
    EpisodeView(e.episodeId, e.record, e.releaseDate, e.addedTo)
  }

  function Views(episodes: seq<EpisodeEntry>): (vs: seq<EpisodeView>)
    reads set i | 0 <= i < |episodes| :: episodes[i]
    ensures |vs| == |episodes| && forall i | 0 <= i < |episodes| :: vs[i] == ViewOf(episodes[i])
  {
    seq(|episodes|, i reads set i | 0 <= i < |episodes| :: episodes[i] requires 0 <= i < |episodes| => ViewOf(episodes[i]))
  }

  /** One more episode of the loop, spelled out. */
  lemma EpisodesRunStep(eps: seq<EpisodeView>, outs: seq<SendOutcome>, first: nat, i: nat)
    requires i < |eps|
    ensures var prev, r := EpisodesRun(eps[..i], outs, first), EpisodesRun(eps[..i + 1], outs, first);
      var skip := prev.failed || Published(eps[i].addedTo);
      var out := OutcomeAt(outs, first + |prev.sent|);
      && r.sent == prev.sent + (if skip then [] else [eps[i]])
      && r.failed == (prev.failed || (!skip && !out.Delivered?))
      && r.markers == prev.markers + [if skip || !out.Delivered? then eps[i].addedTo else AddMarker(eps[i].addedTo, IntToString(out.messageId))]
  {
    assert eps[..i + 1][..i] == eps[..i];
  }

  /**
   * The loop's state after `i` episodes: the markers of the first `i` as the
   * run left them followed by the untouched ones, and what was sent.
   */
  ghost function Partial(eps: seq<EpisodeView>, outs: seq<SendOutcome>, first: nat, i: nat): (r: EpisodeRun)
    requires i <= |eps|
    ensures |r.markers| == |eps|
  {
    var run := EpisodesRun(eps[..i], outs, first);
    EpisodeRun(run.markers + Markers(eps[i..]), run.sent, run.failed)
  }

  /** Before the loop nothing is marked, sent or failed. */
  lemma PartialStart(eps: seq<EpisodeView>, outs: seq<SendOutcome>, first: nat)
    ensures Partial(eps, outs, first, 0) == EpisodeRun(Markers(eps), [], false)
  {
    assert eps[..0] == [] && eps[0..] == eps;
  }

  /** The loop's state around episode `i`: the run so far, the `i`-th marker, and the untouched rest. */
  lemma PartialParts(eps: seq<EpisodeView>, outs: seq<SendOutcome>, first: nat, i: nat)
    requires i < |eps|
    ensures var prev, r := EpisodesRun(eps[..i], outs, first), EpisodesRun(eps[..i + 1], outs, first);
      var p, q, rest := Partial(eps, outs, first, i), Partial(eps, outs, first, i + 1), Markers(eps[i + 1..]);
      && p == EpisodeRun(prev.markers + [eps[i].addedTo] + rest, prev.sent, prev.failed)
      && q == EpisodeRun(r.markers + rest, r.sent, r.failed)
  {
    assert Markers(eps[i..]) == [eps[i].addedTo] + Markers(eps[i + 1..]);
  }

  /** The loop body on a published episode changes nothing. */
  lemma PartialSkips(eps: seq<EpisodeView>, outs: seq<SendOutcome>, first: nat, i: nat, ms: seq<string>, sent: seq<EpisodeView>)
    requires i < |eps| && Partial(eps, outs, first, i) == EpisodeRun(ms, sent, false) && Published(eps[i].addedTo)
    ensures Partial(eps, outs, first, i + 1) == EpisodeRun(ms, sent, false)
  {
    PartialParts(eps, outs, first, i);
    EpisodesRunStep(eps, outs, first, i);
  }

  /** The loop body on an unpublished episode whose send delivers message `id`. */
  lemma PartialDelivers(eps: seq<EpisodeView>, outs: seq<SendOutcome>, first: nat, i: nat, ms: seq<string>, sent: seq<EpisodeView>, id: int)
    requires i < |eps| && Partial(eps, outs, first, i) == EpisodeRun(ms, sent, false) && !Published(eps[i].addedTo)
    requires OutcomeAt(outs, first + |sent|) == Delivered(id)
    ensures ms[i] == eps[i].addedTo
    ensures Partial(eps, outs, first, i + 1) ==
      EpisodeRun(ms[i := AddMarker(eps[i].addedTo, IntToString(id))], sent + [eps[i]], false)
  {
    var prev := EpisodesRun(eps[..i], outs, first);
    PartialParts(eps, outs, first, i);
    EpisodesRunStep(eps, outs, first, i);
    UpdateMiddle(prev.markers, eps[i].addedTo, AddMarker(eps[i].addedTo, IntToString(id)), Markers(eps[i + 1..]));
  }

  /** The loop body on an unpublished episode whose send fails. */
  lemma PartialFails(eps: seq<EpisodeView>, outs: seq<SendOutcome>, first: nat, i: nat, ms: seq<string>, sent: seq<EpisodeView>)
    requires i < |eps| && Partial(eps, outs, first, i) == EpisodeRun(ms, sent, false) && !Published(eps[i].addedTo)
    requires !OutcomeAt(outs, first + |sent|).Delivered?
    ensures Partial(eps, outs, first, i + 1) == EpisodeRun(ms, sent + [eps[i]], true)
  {
    PartialParts(eps, outs, first, i);
    EpisodesRunStep(eps, outs, first, i);
  }

  /** Replacing the element between two parts of a sequence. */
  lemma UpdateMiddle<T>(a: seq<T>, x: T, y: T, b: seq<T>)
    ensures (a + [x] + b)[|a| := y] == a + [y] + b
  {
  }

  /** When the loop stops, at the end or after a failed send, its state is the whole run's. */
  lemma PartialDone(eps: seq<EpisodeView>, outs: seq<SendOutcome>, first: nat, i: nat)
    requires i <= |eps| && (i == |eps| || Partial(eps, outs, first, i).failed)
    ensures Partial(eps, outs, first, i) == EpisodesRun(eps, outs, first)
  {
    var p, r := Partial(eps, outs, first, i), EpisodesRun(eps, outs, first);
    var run := EpisodesRun(eps[..i], outs, first);
    if i == |eps| {
      assert eps[..i] == eps;
      assert Markers(eps[i..]) == [];
      assert p.markers == run.markers;
    } else {
      EpisodesRunAfterFailure(eps, outs, first, i);
      forall j | 0 <= j < |eps|
        ensures p.markers[j] == r.markers[j]
      {
        if i <= j {
          assert p.markers[j] == Markers(eps[i..])[j - i] == eps[i..][j - i].addedTo;
        }
      }
    }
  }

  /** Untouched episodes are their own `EpisodesAfter`. */
  lemma EpisodesAfterMarkers(eps: seq<EpisodeView>)
    ensures EpisodesAfter(eps, Markers(eps)) == eps
  {
  }

  /** The episode objects hold `views` with the markers `ms`. */
  ghost predicate EntriesHold(episodes: seq<EpisodeEntry>, views: seq<EpisodeView>, ms: seq<string>)
    reads set i | 0 <= i < |episodes| :: episodes[i]
  {
    |views| == |episodes| && |ms| == |episodes| && forall j | 0 <= j < |episodes| :: ViewOf(episodes[j]) == views[j].(addedTo := ms[j])
  }

  /** Objects holding `views` with the markers `ms` are seen as `EpisodesAfter(views, ms)`. */
  lemma ViewsOfEntries(episodes: seq<EpisodeEntry>, views: seq<EpisodeView>, ms: seq<string>)
    requires EntriesHold(episodes, views, ms)
    ensures Views(episodes) == EpisodesAfter(views, ms)
  {
  }

  /**
   * One pass of the loop of lines 165-197, on the `i`-th episode object:
   * the loop's state after it, and the objects with the marker it set.
   */
  method PublishEpisodeAt(episodes: seq<EpisodeEntry>, outs: seq<SendOutcome>, first: nat, ghost views: seq<EpisodeView>,
                          i: nat, ghost ms: seq<string>, ghost sent: seq<EpisodeView>, texts: seq<string>)
    returns (texts': seq<string>, failed: bool, ghost ms': seq<string>, ghost sent': seq<EpisodeView>)
    requires i < |episodes| && forall j, k | 0 <= j < k < |episodes| :: episodes[j] != episodes[k]
    requires EntriesHold(episodes, views, ms) && Partial(views, outs, first, i) == EpisodeRun(ms, sent, false)
    requires texts == Messages(sent)
    modifies episodes[i]
    ensures EntriesHold(episodes, views, ms') && Partial(views, outs, first, i + 1) == EpisodeRun(ms', sent', failed)
    ensures texts' == Messages(sent')
  {
    var e := episodes[i];
    assert ViewOf(e) == views[i];
    texts', failed, ms', sent' := texts, false, ms, sent;
    if !Published(e.addedTo) {
      var msg := EpisodeMessage(ViewOf(e));
      var out := OutcomeAt(outs, first + |texts|);
      if out.Delivered? {
        PartialDelivers(views, outs, first, i, ms, sent, out.messageId);
        assert forall j | 0 <= j < |episodes| && j != i :: episodes[j] != e;
        e.addedTo := AddMarker(e.addedTo, IntToString(out.messageId));
        ms' := ms[i := e.addedTo];
      } else {
        PartialFails(views, outs, first, i, ms, sent);
        failed := true;
      }
      texts', sent' := texts + [msg], sent + [views[i]];
      MessagesAppend(sent, views[i]);
    } else {
      PartialSkips(views, outs, first, i, ms, sent);
    }
  }

  /**
   * Lines 165-197 on the episode objects: the texts sent, whether a send
   * failed, and each object's marker as `EpisodesRun` has it.
   */
  method PublishEpisodes(episodes: seq<EpisodeEntry>, outs: seq<SendOutcome>, first: nat) returns (texts: seq<string>, failed: bool)
    requires forall i, j | 0 <= i < j < |episodes| :: episodes[i] != episodes[j]
    modifies set i | 0 <= i < |episodes| :: episodes[i]
    ensures var run := EpisodesRun(old(Views(episodes)), outs, first);
      texts == Messages(run.sent) && failed == run.failed && Views(episodes) == EpisodesAfter(old(Views(episodes)), run.markers)
  {
    ghost var views := Views(episodes);
    ghost var ms, sent := Markers(views), [];
    texts, failed := [], false;
    PartialStart(views, outs, first);
    var i := 0;
    while i < |episodes| && !failed
      invariant 0 <= i <= |episodes|
      invariant EntriesHold(episodes, views, ms) && Partial(views, outs, first, i) == EpisodeRun(ms, sent, failed)
      invariant texts == Messages(sent)
    {
      texts, failed, ms, sent := PublishEpisodeAt(episodes, outs, first, views, i, ms, sent, texts);
      i := i + 1;
    }
    PartialDone(views, outs, first, i);
    ViewsOfEntries(episodes, views, ms);
  }

  /** Lines 117-160 on the anime object: the post and the markers, as `AnimePost` describes them. */
  method PublishAnime(chatId: PyValue, anime: AnimeEntry, outs: seq<SendOutcome>) returns (sent: seq<string>, goOn: bool)
    modifies anime
    ensures var s := AnimePost(chatId, old(AnimeViewOf(anime)), outs);
      sent == s.texts && goOn == s.goOn && AnimeViewOf(anime) == s.anime
    ensures anime.animeId == old(anime.animeId)
  {
    sent, goOn := [], true;
    if !Published(anime.addedTo) {
      sent := [AnimeMessage(anime.record)];
      var out := OutcomeAt(outs, 0);
      if out.Raised? {
        return sent, false;
      }
      anime.channel := AddMarker(anime.channel, Render(chatId));
      if out.NoMessage? {
        return sent, false;
      }
      anime.addedTo := AddMarker(anime.addedTo, IntToString(out.messageId));
    }
  }

  /**
   * `add_anime_to_telegram(chat_id, mal_id)` once `anime` and `episodes` have
   * been fetched: the sends, the marker updates on the objects, and the
   * early returns, as `Publish` describes them.
   */
  method AddAnimeToTelegram(chatId: PyValue, anime: AnimeEntry, episodes: seq<EpisodeEntry>, outs: seq<SendOutcome>)
    returns (sent: seq<string>)
    requires forall i, j | 0 <= i < j < |episodes| :: episodes[i] != episodes[j]
    modifies anime, set i | 0 <= i < |episodes| :: episodes[i]
    ensures var p := Publish(chatId, old(AnimeViewOf(anime)), old(Views(episodes)), outs);
      && sent == p.texts
      && AnimeViewOf(anime) == AnimeAfter(old(AnimeViewOf(anime)), p)
      && Views(episodes) == EpisodesAfter(old(Views(episodes)), p.markers)
    ensures anime.animeId == old(anime.animeId)
  {
    ghost var v0 := Views(episodes);
    var goOn;
    sent, goOn := PublishAnime(chatId, anime, outs);
    assert Views(episodes) == v0;
    if !goOn {
      EpisodesAfterMarkers(v0);
      return;
    }
    ghost var a1 := AnimeViewOf(anime);
    var texts, failed := PublishEpisodes(episodes, outs, |sent|);
    assert AnimeViewOf(anime) == a1;
    sent := sent + texts;
  }
}
