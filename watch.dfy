/**
 * The watch page: the Jikan lookup that derives a search title, the three
 * episode-source adapters (Zoro, Animepahe, Gojo) and the fallback loop that
 * tries them in a fixed order until one yields an embed URL.
 *
 * Nothing here talks to a network. Every HTTP step (a `fetch` followed by
 * `response.json()`) is an injected answer: `Network` holds one total
 * function per provider and per step, from the request's parameters to what
 * that step yields, so the adapters are plain functions of their inputs and
 * the loop runs sequentially.
 */
module Watch {
  import opened Wrappers
  import opened JsString

  /** What one `fetch` + `json()` step yields: a parsed body, or the message of the exception it raised. */
  datatype Reply<T> = Ok(body: T) | Fails(message: string)

  /** A fetched response whose status is inspected before `json()` is called. */
  datatype HttpResponse<T> = HttpResponse(ok: bool, status: nat, json: Reply<T>)

  /** The fields of Jikan's `data` record that the page reads; `None` is `null` or absent. */
  datatype AnimeRecord = AnimeRecord(title: Option<string>, titleEnglish: Option<string>, titleJapanese: Option<string>)

  /**
   * One entry of a provider's episode list. `number` is `None` when the field
   * is absent or is not an integral JSON number (a string never equals a number under `===`).
   */
  datatype Episode = Episode(number: Option<int>, link: Option<string>)

  /**
   * The injected network. A search step yields the list under `data`
   * (Zoro: the hits' `id`) or `results` (Animepahe: the hits' `session`),
   * `None` when that field is missing.
   */
  datatype Network = Network(
    jikan: string -> Option<AnimeRecord>,             // None: the lookup threw (network, JSON, missing `data`)
    zoroSearch: string -> Reply<Option<seq<string>>>,
    zoroEpisodes: string -> Reply<Option<seq<Episode>>>,
    paheSearch: string -> Reply<Option<seq<string>>>,
    paheWatch: (string, string) -> Reply<Option<string>>,  // `embed`, by session and episode
    gojoEpisodes: string -> Reply<HttpResponse<Option<seq<Episode>>>>
  )

  // ------------------------------------------------------------------
  // Title lookup
  // ------------------------------------------------------------------

  /** What `fetchAnimeTitle` returns: the title to display and the one to search providers with. */
  datatype TitleData = TitleData(title: Option<string>, searchTitle: string)

  /** `anime.title_english || anime.title_japanese || anime.title`. */
  function PreferredTitle(a: AnimeRecord): (r: Option<string>)
    ensures Truthy(a.titleEnglish) ==> r == a.titleEnglish
    ensures !Truthy(a.titleEnglish) && Truthy(a.titleJapanese) ==> r == a.titleJapanese
    ensures !Truthy(a.titleEnglish) && !Truthy(a.titleJapanese) ==> r == a.title
  {
    if Truthy(a.titleEnglish) then a.titleEnglish
    else if Truthy(a.titleJapanese) then a.titleJapanese
    else a.title
  }

  /** `k` is the position of the first colon of `s`. */
  predicate FirstColonAt(s: string, k: int) {
    0 <= k < |s| && s[k] == ':' && ':' !in s[..k]
  }

  /**
   * The search title: cut at the first colon and trimmed when there is one,
   * returned untouched (not even trimmed) when there is none.
   */
  function SearchTitle(s: string): (r: string)
    ensures ':' !in r
    ensures ':' !in s ==> r == s
    ensures ':' in s ==> exists k :: FirstColonAt(s, k) && r == Trim(s[..k])
  {
    if ':' in s then
      var before := BeforeFirst(s, ':');
      assert FirstColonAt(s, |before|);
      TrimKeepsAbsent(before, ':');
      Trim(before)
    else s
  }

  /**
   * `fetchAnimeTitle`: `None` when the lookup threw, including when every
   * title field is falsy and the primary title is `null` (`includes` on
   * `null` throws). The display title is always the primary `title`.
   */
  function FetchAnimeTitle(meta: Option<AnimeRecord>): (r: Option<TitleData>)
    ensures r.Some? <==> meta.Some? && PreferredTitle(meta.value).Some?
    ensures r.Some? ==> && r.value.title == meta.value.title
                        && r.value.searchTitle == SearchTitle(PreferredTitle(meta.value).value)
  {
    match meta
    case None => None
    case Some(anime) =>
      match PreferredTitle(anime)
      case None => None
      case Some(s) => Some(TitleData(anime.title, SearchTitle(s)))
  }

  /** A title with a subtitle after its first colon is searched by the trimmed part before it. */
  lemma SearchTitleCutsAtFirstColon(head: string, tail: string)
    requires ':' !in head
    ensures SearchTitle(head + ":" + tail) == Trim(head)
  {
    var s := head + ":" + tail;
    assert s[|head|] == ':';
    assert s[..|head|] == head;
    var b := BeforeFirst(s, ':');
    assert b == s[..|b|];
    assert |b| == |head| by {
      assert forall k :: 0 <= k < |head| ==> s[k] == head[k];
      assert |b| < |s| ==> s[|b|] == ':';
    }
  }

  /** "Attack on Titan" has no whitespace at either end. */
  lemma PlainTitle(h: string)
    requires h == "Attack on Titan"
    ensures Trim(h) == h
  {
    assert h[0] == 'A' && h[|h| - 1] == 'n';
    TrimUnchanged(h);
  }

  /** A subtitle after the colon is dropped: "Attack on Titan: Final Season" is searched as "Attack on Titan". */
  lemma SearchTitleDropsSubtitle(s: string)
    requires s == "Attack on Titan: Final Season"
    ensures SearchTitle(s) == "Attack on Titan"
  {
    var head, tail := "Attack on Titan", " Final Season";
    assert s == head + ":" + tail;
    assert ':' !in head;
    PlainTitle(head);
    SearchTitleCutsAtFirstColon(head, tail);
  }

  // ------------------------------------------------------------------
  // Provider adapters
  // ------------------------------------------------------------------

  /** What an adapter does: return an embed URL, or throw an `Error` with a message. */
  datatype ProviderResult = Found(url: string) | Throws(message: string)

  /** The id (or session) of the first search hit: `data[0].id`, `results[0].session`. */
  function FirstHit(search: Reply<Option<seq<string>>>): (r: Option<string>)
    ensures r.Some? <==> search.Ok? && search.body.Some? && search.body.value != []
    ensures r.Some? ==> r.value == search.body.value[0]
  {
    if search.Ok? && search.body.Some? && search.body.value != [] then Some(search.body.value[0]) else None
  }

  /** `k` is the first entry of `eps` whose number is `n`. */
  predicate IsFirstMatch(eps: seq<Episode>, n: int, k: int) {
    && 0 <= k < |eps|
    && eps[k].number == Some(n)
    && forall j :: 0 <= j < k ==> eps[j].number != Some(n)
  }

  /** `episodes.find(ep => ep.number === n)`, as a position. */
  function FindEpisode(eps: seq<Episode>, n: int): (r: Option<nat>)
    ensures r.Some? ==> IsFirstMatch(eps, n, r.value)
    ensures r.None? ==> forall j :: 0 <= j < |eps| ==> eps[j].number != Some(n)
  {
    if eps == [] then None
    else if eps[0].number == Some(n) then Some(0)
    else
      match FindEpisode(eps[1..], n)
      case Some(k) => Some(k + 1)
      case None => None
  }

  /** `url` is the link of the first entry numbered `parseInt(episodeNumber)`. */
  ghost predicate LinkOfFirstMatch(eps: seq<Episode>, episodeNumber: string, url: string) {
    && ParseInt(episodeNumber).Some?
    && exists k :: IsFirstMatch(eps, ParseInt(episodeNumber).value, k) && eps[k].link == Some(url)
  }

  function EpisodeNotFound(episodeNumber: string, site: string): string {
    "Épisode " + episodeNumber + " non trouvé sur " + site + "."
  }

  /**
   * The shared last step of Zoro and Gojo: find the first entry numbered
   * `parseInt(episodeNumber)` and return its link when truthy; otherwise throw.
   * A later entry with the same number is never looked at.
   */
  function EpisodeLink(eps: seq<Episode>, episodeNumber: string, site: string): (r: ProviderResult)
    ensures r.Found? ==> r.url != "" && LinkOfFirstMatch(eps, episodeNumber, r.url)
    ensures (exists url :: url != "" && LinkOfFirstMatch(eps, episodeNumber, url)) ==> r.Found?
    ensures r.Throws? ==> r.message == EpisodeNotFound(episodeNumber, site)
  {
    match ParseInt(episodeNumber)
    case None => Throws(EpisodeNotFound(episodeNumber, site))
    case Some(n) =>
      match FindEpisode(eps, n)
      case Some(k) =>
        if Truthy(eps[k].link) then Found(eps[k].link.value)
        else Throws(EpisodeNotFound(episodeNumber, site))
      case None => Throws(EpisodeNotFound(episodeNumber, site))
  }

  /**
   * `fetchZoroSource`: search by title, take the first hit's id only, fetch its
   * episode list, then the first entry with the requested number.
   */
  function FetchZoroSource(net: Network, title: string, episodeNumber: string): (r: ProviderResult)
    ensures net.zoroSearch(title).Fails? ==> r == Throws(net.zoroSearch(title).message)
    ensures net.zoroSearch(title).Ok? && FirstHit(net.zoroSearch(title)).None? ==>
              r == Throws("Anime non trouvé sur Zoro-API")
    ensures FirstHit(net.zoroSearch(title)).Some? ==>
              var id := FirstHit(net.zoroSearch(title)).value;
              && (net.zoroEpisodes(id).Fails? ==> r == Throws(net.zoroEpisodes(id).message))
              && (net.zoroEpisodes(id).Ok? && (net.zoroEpisodes(id).body.None? || net.zoroEpisodes(id).body.value == []) ==>
                    r == Throws("Épisodes non trouvés pour Zoro ID: " + id))
              && (net.zoroEpisodes(id).Ok? && net.zoroEpisodes(id).body.Some? && net.zoroEpisodes(id).body.value != [] ==>
                    r == EpisodeLink(net.zoroEpisodes(id).body.value, episodeNumber, "Zoro"))
    ensures r.Found? ==> && r.url != ""
                         && FirstHit(net.zoroSearch(title)).Some?
                         && var id := FirstHit(net.zoroSearch(title)).value;
                         && net.zoroEpisodes(id).Ok? && net.zoroEpisodes(id).body.Some?
                         && LinkOfFirstMatch(net.zoroEpisodes(id).body.value, episodeNumber, r.url)
  {
    match net.zoroSearch(title)
    case Fails(m) => Throws(m)
    case Ok(hits) =>
      if hits.None? || hits.value == [] then Throws("Anime non trouvé sur Zoro-API")
      else
        var id := hits.value[0];
        match net.zoroEpisodes(id)
        case Fails(m) => Throws(m)
        case Ok(episodes) =>
          if episodes.None? || episodes.value == [] then Throws("Épisodes non trouvés pour Zoro ID: " + id)
          else EpisodeLink(episodes.value, episodeNumber, "Zoro")
  }

  /**
   * `fetchAnimepaheSource`: search by title, take the first hit's session only,
   * and return the `embed` of that session's episode page when truthy.
   */
  function FetchAnimepaheSource(net: Network, title: string, episodeNumber: string): (r: ProviderResult)
    ensures net.paheSearch(title).Fails? ==> r == Throws(net.paheSearch(title).message)
    ensures net.paheSearch(title).Ok? && FirstHit(net.paheSearch(title)).None? ==>
              r == Throws("Anime non trouvé sur Animepahe.")
    ensures FirstHit(net.paheSearch(title)).Some? ==>
              var watch := net.paheWatch(FirstHit(net.paheSearch(title)).value, episodeNumber);
              && (watch.Fails? ==> r == Throws(watch.message))
              && (watch.Ok? && Truthy(watch.body) ==> r == Found(watch.body.value))
              && (watch.Ok? && !Truthy(watch.body) ==> r == Throws(EpisodeNotFound(episodeNumber, "Animepahe")))
    ensures r.Found? ==> && r.url != ""
                         && FirstHit(net.paheSearch(title)).Some?
                         && net.paheWatch(FirstHit(net.paheSearch(title)).value, episodeNumber) == Ok(Some(r.url))
  {
    match net.paheSearch(title)
    case Fails(m) => Throws(m)
    case Ok(hits) =>
      if hits.None? || hits.value == [] then Throws("Anime non trouvé sur Animepahe.")
      else
        var session := hits.value[0];
        match net.paheWatch(session, episodeNumber)
        case Fails(m) => Throws(m)
        case Ok(embed) =>
          if Truthy(embed) then Found(embed.value)
          else Throws(EpisodeNotFound(episodeNumber, "Animepahe"))
  }

  /**
   * `fetchGojoSource`: one request by title; a status that is not ok throws
   * before the body is read; a missing `episodes` list finds nothing.
   */
  function FetchGojoSource(net: Network, title: string, episodeNumber: string): (r: ProviderResult)
    ensures net.gojoEpisodes(title).Fails? ==> r == Throws(net.gojoEpisodes(title).message)
    ensures net.gojoEpisodes(title).Ok? && !net.gojoEpisodes(title).body.ok ==>
              r == Throws("ÉCHEC (Statut: " + NatToString(net.gojoEpisodes(title).body.status) + ")")
    ensures net.gojoEpisodes(title).Ok? && net.gojoEpisodes(title).body.ok ==>
              var json := net.gojoEpisodes(title).body.json;
              && (json.Fails? ==> r == Throws(json.message))
              && (json == Ok(None) ==> r == Throws(EpisodeNotFound(episodeNumber, "Gojo")))
              && (json.Ok? && json.body.Some? ==> r == EpisodeLink(json.body.value, episodeNumber, "Gojo"))
    ensures r.Found? ==> && r.url != ""
                         && net.gojoEpisodes(title).Ok? && net.gojoEpisodes(title).body.ok
                         && net.gojoEpisodes(title).body.json.Ok?
                         && net.gojoEpisodes(title).body.json.body.Some?
                         && LinkOfFirstMatch(net.gojoEpisodes(title).body.json.body.value, episodeNumber, r.url)
  {
    match net.gojoEpisodes(title)
    case Fails(m) => Throws(m)
    case Ok(response) =>
      if !response.ok then Throws("ÉCHEC (Statut: " + NatToString(response.status) + ")")
      else
        match response.json
        case Fails(m) => Throws(m)
        case Ok(episodes) => EpisodeLink(if episodes.Some? then episodes.value else [], episodeNumber, "Gojo")
  }

  /** Two networks that agree on the first hit and on its episode list give Zoro the same answer. */
  lemma ZoroUsesFirstHitOnly(net1: Network, net2: Network, title: string, episodeNumber: string)
    requires net1.zoroSearch(title).Ok? && net2.zoroSearch(title).Ok?
    requires FirstHit(net1.zoroSearch(title)) == FirstHit(net2.zoroSearch(title))
    requires FirstHit(net1.zoroSearch(title)).Some? ==>
               net1.zoroEpisodes(FirstHit(net1.zoroSearch(title)).value) ==
               net2.zoroEpisodes(FirstHit(net1.zoroSearch(title)).value)
    ensures FetchZoroSource(net1, title, episodeNumber) == FetchZoroSource(net2, title, episodeNumber)
  {
  }

  // ------------------------------------------------------------------
  // The fallback loop
  // ------------------------------------------------------------------

  /** One entry of the `apis` array: a provider's name and its adapter (`url` is folded into the network). */
  datatype Api = Api(name: string, fetcher: (Network, string, string) -> ProviderResult)

  /** The `apis` array: the providers and the order in which they are tried. */
  const Apis: seq<Api> := [
    Api("Zoro-API", FetchZoroSource),
    Api("Animepahe-API", FetchAnimepaheSource),
    Api("Gojo-API", FetchGojoSource)
  ]

  /** None of the three adapters ever returns a falsy URL: each returns a non-empty string or throws. */
  lemma AdaptersNeverAnswerEmpty(net: Network, title: string, episode: string)
    ensures forall k :: 0 <= k < |Apis| && Apis[k].fetcher(net, title, episode).Found? ==>
                          Apis[k].fetcher(net, title, episode).url != ""
  {
    assert Apis[0].fetcher == FetchZoroSource;
    assert Apis[1].fetcher == FetchAnimepaheSource;
    assert Apis[2].fetcher == FetchGojoSource;
  }

  /** `await api.fetcher(titleData.searchTitle, episodeNumber, api.url)` for every entry, in order. */
  function Answers(apis: seq<Api>, net: Network, title: string, episode: string): (rs: seq<ProviderResult>)
    ensures |rs| == |apis|
    ensures forall k :: 0 <= k < |apis| ==> rs[k] == apis[k].fetcher(net, title, episode)
  {
    seq(|apis|, k requires 0 <= k < |apis| => apis[k].fetcher(net, title, episode))
  }

  /** `if (embedUrl)`: an answer the loop accepts. */
  predicate Succeeds(r: ProviderResult) {
    r.Found? && r.url != ""
  }

  /** Position of the first accepted answer. */
  function FirstSuccess(rs: seq<ProviderResult>): (r: Option<nat>)
    ensures r.Some? ==> r.value < |rs| && Succeeds(rs[r.value])
    ensures r.Some? ==> forall j :: 0 <= j < r.value ==> !Succeeds(rs[j])
    ensures r.None? <==> forall j :: 0 <= j < |rs| ==> !Succeeds(rs[j])
  {
    if rs == [] then None
    else if Succeeds(rs[0]) then Some(0)
    else
      match FirstSuccess(rs[1..])
      case Some(k) => Some(k + 1)
      case None => None
  }

  /** The first accepted answer is the one with no accepted answer before it. */
  lemma FirstSuccessIs(rs: seq<ProviderResult>, k: nat)
    requires k < |rs| && Succeeds(rs[k])
    requires forall j :: 0 <= j < k ==> !Succeeds(rs[j])
    ensures FirstSuccess(rs) == Some(k)
  {
  }

  /** What `lastError` records of a throw: the provider's name and the exception's message. */
  datatype ThrownBy = ThrownBy(provider: string, message: string)

  /** The text of `lastError`: `Erreur sur ${api.name}: ${error.message}`. */
  function ErrorText(t: ThrownBy): (r: string)
    ensures |r| == 13 + |t.provider| + |t.message|
    ensures r[..11] == "Erreur sur "
    ensures r[11 + |t.provider|..13 + |t.provider|] == ": "
    ensures r[11..11 + |t.provider|] == t.provider
    ensures r[|r| - |t.message|..] == t.message
  {
    "Erreur sur " + t.provider + ": " + t.message
  }

  /** `k` is the last answer of `rs` that is a throw. */
  predicate IsLastThrow(rs: seq<ProviderResult>, k: int) {
    && 0 <= k < |rs|
    && rs[k].Throws?
    && forall j :: k < j < |rs| ==> !rs[j].Throws?
  }

  /** Position of the most recent throw among `rs`. */
  function LastThrow(rs: seq<ProviderResult>): (r: Option<nat>)
    ensures r.Some? ==> IsLastThrow(rs, r.value)
    ensures r.None? <==> forall j :: 0 <= j < |rs| ==> !rs[j].Throws?
  {
    if rs == [] then None
    else if rs[|rs| - 1].Throws? then Some(|rs| - 1)
    else LastThrow(rs[..|rs| - 1])
  }

  /**
   * The value `lastError` holds once the first `|rs|` entries of `apis`
   * answered `rs`: each throw overwrites it, so it reports the most recent
   * throw only, and stays `null` when nothing threw.
   */
  function LastError(apis: seq<Api>, rs: seq<ProviderResult>): (r: Option<ThrownBy>)
    requires |rs| <= |apis|
    ensures r.None? <==> forall j :: 0 <= j < |rs| ==> !rs[j].Throws?
    ensures forall k :: IsLastThrow(rs, k) ==> r == Some(ThrownBy(apis[k].name, rs[k].message))
  {
    match LastThrow(rs)
    case Some(k) => Some(ThrownBy(apis[k].name, rs[k].message))
    case None => None
  }

  /** One more answer either overwrites `lastError` (a throw) or leaves it as it was. */
  lemma LastErrorStep(apis: seq<Api>, rs: seq<ProviderResult>, i: nat)
    requires i < |rs| <= |apis|
    ensures LastError(apis, rs[..i + 1]) ==
              if rs[i].Throws? then Some(ThrownBy(apis[i].name, rs[i].message)) else LastError(apis, rs[..i])
  {
    assert rs[..i + 1][..i] == rs[..i];
  }

  datatype Request = TitleLookup(malId: string) | SourceAttempt(provider: string, title: string, episode: string)

  /** The provider requests the loop makes if it tries every entry of `apis`. */
  function Attempts(apis: seq<Api>, title: string, episode: string): (r: seq<Request>)
    ensures |r| == |apis|
    ensures forall k :: 0 <= k < |apis| ==> r[k] == SourceAttempt(apis[k].name, title, episode)
  {
    seq(|apis|, k requires 0 <= k < |apis| => SourceAttempt(apis[k].name, title, episode))
  }

  /** Why the page shows an error box. */
  datatype Failure =
    | MissingParameters
    | MetadataUnavailable
    | AllProvidersFailed(lastError: Option<ThrownBy>)

  /** What the page ends up showing: an error box, or the player with the name of the provider that supplied it. */
  datatype Screen = ErrorShown(failure: Failure) | PlayerShown(embedUrl: string, via: string)

  /** The text `displayError` is given for each failure. */
  function Message(f: Failure): (r: string)
    ensures f.AllProvidersFailed? && f.lastError.Some? ==>
              |ErrorText(f.lastError.value)| <= |r| && r[|r| - |ErrorText(f.lastError.value)|..] == ErrorText(f.lastError.value)
    ensures f.AllProvidersFailed? && f.lastError.None? ==> 16 <= |r| && r[|r| - 16..] == "Erreur inconnue."
  {
    match f
    case MissingParameters => "ID d'anime ou numéro d'épisode manquant."
    case MetadataUnavailable => "Impossible de charger les métadonnées de l'anime (Jikan)."
    case AllProvidersFailed(lastError) =>
      "Échec total de la lecture. Aucune des APIs n'a pu fournir la source. Dernière erreur: "
      + (if lastError.Some? then ErrorText(lastError.value) else "Erreur inconnue.")
  }

  /**
   * The provider loop of `loadEpisodeSource`, over any list of providers:
   * they are tried in list order, each with the same search title and
   * episode; the first accepted answer is rendered and no later provider is
   * asked; a throw never stops the loop, it only overwrites `lastError`; when
   * no answer is accepted the error carries the most recent throw, or none
   * ("Erreur inconnue.") when nothing threw. `attempts` lists the provider
   * requests made, in order.
   */
  method TryProviders(apis: seq<Api>, net: Network, title: string, episode: string)
    returns (screen: Screen, attempts: seq<Request>)
    ensures var rs := Answers(apis, net, title, episode);
            match FirstSuccess(rs)
            case Some(k) =>
              && screen == PlayerShown(rs[k].url, apis[k].name)
              && attempts == Attempts(apis, title, episode)[..k + 1]
            case None =>
              && screen == ErrorShown(AllProvidersFailed(LastError(apis, rs)))
              && attempts == Attempts(apis, title, episode)
  {
    ghost var rs := Answers(apis, net, title, episode);
    ghost var all := Attempts(apis, title, episode);
    var sourceFound := false;
    var lastError: Option<ThrownBy> := None;
    attempts := [];
    var i := 0;
    while i < |apis|
      invariant 0 <= i <= |apis|
      invariant !sourceFound
      invariant attempts == all[..i]
      invariant forall j :: 0 <= j < i ==> !Succeeds(rs[j])
      invariant lastError == LastError(apis, rs[..i])
    {
      var api := apis[i];
      attempts := attempts + [SourceAttempt(api.name, title, episode)];
      assert all[..i + 1] == all[..i] + [all[i]];
      var result := api.fetcher(net, title, episode);
      if result.Found? && result.url != "" {
        FirstSuccessIs(rs, i);
        screen := PlayerShown(result.url, api.name);
        sourceFound := true;
        break;
      } else if result.Throws? {
        lastError := Some(ThrownBy(api.name, result.message));
      }
      LastErrorStep(apis, rs, i);
      i := i + 1;
    }
    if !sourceFound {
      assert rs[..i] == rs && all[..i] == all;
      screen := ErrorShown(AllProvidersFailed(lastError));
    }
  }

  /**
   * `loadEpisodeSource`. `requests` lists, in order, the title lookup and the
   * provider attempts made. A missing or empty id or episode is reported
   * before any request; a failed title lookup is reported before any provider
   * is asked; otherwise the providers of `Apis` are tried with the derived
   * search title.
   */
  method LoadEpisodeSource(malId: Option<string>, episodeNumber: Option<string>, net: Network)
    returns (screen: Screen, requests: seq<Request>)
    ensures !Truthy(malId) || !Truthy(episodeNumber) ==>
              screen == ErrorShown(MissingParameters) && requests == []
    ensures Truthy(malId) && Truthy(episodeNumber) && FetchAnimeTitle(net.jikan(malId.value)).None? ==>
              screen == ErrorShown(MetadataUnavailable) && requests == [TitleLookup(malId.value)]
    ensures Truthy(malId) && Truthy(episodeNumber) && FetchAnimeTitle(net.jikan(malId.value)).Some? ==>
              var title := FetchAnimeTitle(net.jikan(malId.value)).value.searchTitle;
              var rs := Answers(Apis, net, title, episodeNumber.value);
              match FirstSuccess(rs)
              case Some(k) =>
                && screen == PlayerShown(rs[k].url, Apis[k].name)
                && requests == [TitleLookup(malId.value)] + Attempts(Apis, title, episodeNumber.value)[..k + 1]
              case None =>
                && screen == ErrorShown(AllProvidersFailed(LastError(Apis, rs)))
                && requests == [TitleLookup(malId.value)] + Attempts(Apis, title, episodeNumber.value)
  {
    if !Truthy(malId) || !Truthy(episodeNumber) {
      screen := ErrorShown(MissingParameters);
      requests := [];
      return;
    }
    var id, episode := malId.value, episodeNumber.value;
    var titleData := FetchAnimeTitle(net.jikan(id));
    if titleData.None? {
      screen := ErrorShown(MetadataUnavailable);
      requests := [TitleLookup(id)];
      return;
    }
    var attempts;
    screen, attempts := TryProviders(Apis, net, titleData.value.searchTitle, episode);
    requests := [TitleLookup(id)] + attempts;
  }
}
