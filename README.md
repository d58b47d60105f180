# Anim--stream, modelled in Dafny

Anim--stream is a static front end for an anime catalogue. This project models the parts of it that decide something:

- **The watch page** (`watch.js`) finds a playable episode. It looks up the anime on Jikan and derives a search title. Then it asks three episode-source providers in a fixed order: Zoro, Animepahe, Gojo. It shows the first embed URL one of them yields; otherwise it reports the last error thrown.
- **The favourites toggle** (`details-integration.js`) adds or removes an item in a list kept in local storage.
- **The simulated session** (`auth-header.js`) covers who is logged in, logout, and a case-insensitive login. The login prefers the last registered user over a built-in default user.
- **The login form** (`login.js`) sorts a submission into three outcomes.
- **The registration form** (`register.js`) runs an ordered chain of checks.
- **The theme switch** (`theme-toggle.js`) picks the initial theme, toggles it on click, persists it and sets the icon.

Modules:

- `Wrappers`: `Option` and JavaScript truthiness of an optional string.
- `JsString`: the string built-ins the pages use.
  - `trim`; `toLowerCase` on ASCII letters; `split(':')[0]`.
  - `length` in UTF-16 code units.
  - `parseInt` with no radix.
  - Decimal rendering of a number.
- `Storage`: `localStorage` as a class holding a `map` that methods update in place.
- `Watch`: title derivation, the three adapters and the fallback loop.
  - The network is injected as `Network`, one total function per provider request. Each function returns the parsed body, or the message of the exception that the request raised.
  - Each adapter is a pure function returning `Found(url)` or `Throws(message)`.
  - The loop is a method over the `apis` table. The table holds each provider's name and adapter, as the source's array does.
  - The loop is proved for any table. `LoadEpisodeSource` runs it on the three-provider table.
- `Favorites`, `Auth`, `Login`, `Register`, `Theme`: the other pages.
  - Favourites, session and theme keep the source's in-place updates: storage is a `LocalStorage` object, and the theme state is a `ThemePage` class.
  - Login and registration are pure functions.

Points where the code behaves differently from what a reader might expect, and the model does what the code does:

- **Only the last error is kept.** The code keeps one `lastError` string, overwritten by each throw. It keeps no per-provider attempt log. The model returns the most recent throw, with the provider's name, or none.
- **Not found and failed look the same.** The code does not tell "not found" apart from "request failed": an empty search result, a missing episode and a non-ok status all throw. The model has no such distinction either.
- **A title without a colon is not trimmed.** The code trims the search title only when it contains a colon; a title without one is returned as is, surrounding whitespace included. `Watch.SearchTitle` leaves it unchanged.
- **No timeouts or cancellation.** The code has none, so there is nothing to model.

## Model

| member | source | states |
|---|---|---|
| Watch.PreferredTitle | watch.js:81 | The title searched with is the English title if truthy, else the Japanese title if truthy, else the primary title. |
| Watch.SearchTitle | watch.js:82-84 | The search title never contains a colon. A title without a colon is returned unchanged, not trimmed. Otherwise it is the trimmed text before the first colon. |
| Watch.FetchAnimeTitle | watch.js:74-91 | The title data is missing exactly when the lookup failed or there is no title to search with. The display title is always the primary `title`, and the search title is derived from the preferred title. |
| Watch.SearchTitleCutsAtFirstColon | watch.js:82-84 | For any colon-free head, `head + ":" + tail` is searched as the trimmed head, whatever the tail holds (more colons included). |
| Watch.SearchTitleDropsSubtitle | watch.js:82-84 | "Attack on Titan: Final Season" is searched as "Attack on Titan". |
| Watch.FirstHit | watch.js:100-104 | A search yields a hit only when its list is present and non-empty, and the hit is the list's first element. |
| Watch.FindEpisode | watch.js:116 | `find` returns the first episode whose number equals the requested one, and returns nothing exactly when no episode has that number. |
| Watch.EpisodeLink | watch.js:116-124 | A URL is returned only when `parseInt(episode)` is a number and the first episode with that number has a non-empty link. Such a link is always returned. Every other case throws "Épisode … non trouvé sur …". |
| Watch.FetchZoroSource | watch.js:94-125 | A failed search request passes its error on. A missing or empty hit list throws "Anime non trouvé sur Zoro-API". Only the first hit's id is used. A missing or empty episode list throws, naming that id. A non-empty episode list gives exactly what the first-match rule of `EpisodeLink` gives: the first matching episode's link, or "Épisode … non trouvé sur Zoro.". |
| Watch.FetchAnimepaheSource | watch.js:128-163 | A failed search request passes its error on, and an empty search throws "Anime non trouvé sur Animepahe.". A failed watch request for the first hit passes its error on. A URL is returned iff the watch request answers with a truthy `embed`, and it is that embed. When the watch request answers without one, "Épisode … non trouvé sur Animepahe." is thrown. |
| Watch.FetchGojoSource | watch.js:166-184 | A non-ok status throws "ÉCHEC (Statut: n)" before the body is read. A missing `episodes` list finds nothing. Otherwise the first-match rule decides. |
| Watch.ZoroUsesFirstHitOnly | watch.js:104 | Two networks that agree on the first search hit and on its episode list give the same Zoro answer, whatever the later hits are. |
| Watch.AdaptersNeverAnswerEmpty | watch.js:118-122 | None of the three adapters in the `apis` table ever returns an empty URL: each returns a non-empty string or throws. |
| Watch.FirstSuccess | watch.js:52-57 | Gives the position of the first answer with a truthy URL; every earlier answer is not one. It gives nothing exactly when no answer has a truthy URL. |
| Watch.LastThrow | watch.js:58-61 | Gives the position of the last throw, with no throw after it; nothing when no answer threw. |
| Watch.LastError | watch.js:58-61 | `lastError` is null exactly when no provider threw. Otherwise it holds the provider name and message of the last throw. |
| Watch.ErrorText | watch.js:59 | The recorded error is "Erreur sur " followed by the provider's name, then ": " and the thrown message. |
| Watch.LastErrorStep | watch.js:58-61 | Each further answer either overwrites the recorded error (when it throws) or leaves it as it was. |
| Watch.TryProviders | watch.js:45-66 | For any provider table, providers are tried in table order with the same search title and episode. The first truthy URL is shown and no later provider is asked. Throws never stop the loop. When no provider succeeds, every provider was asked and the error names the most recent throw, or none ("Erreur inconnue."). |
| Watch.Message | watch.js:65 | When every provider failed, the text shown ends with the recorded error, or with "Erreur inconnue." when nothing was recorded. |
| Watch.LoadEpisodeSource | watch.js:18-67 | A falsy id or episode gives an error before any request. A failed title lookup gives an error after that one request, before any provider. Otherwise Zoro, Animepahe and Gojo are tried as in `TryProviders`. |
| JsString.Trim | watch.js:83 | `trim` returns a slice of its input that neither starts nor ends with whitespace; everything cut off is whitespace. |
| JsString.TrimIdempotent | login.js:39-40 | Trimming twice is trimming once. |
| JsString.TrimKeepsAbsent | watch.js:83 | Trimming never introduces a character. |
| JsString.BeforeFirst | watch.js:83 | `split(sep)[0]` is the longest prefix without `sep`; when shorter than the input, `sep` comes next. |
| JsString.ToLower | auth-header.js:118 | `toLowerCase` keeps the length and maps each character on its own, lower-casing ASCII capitals only. |
| JsString.ToLowerIdempotent | auth-header.js:118 | Lower-casing twice is lower-casing once. |
| JsString.Utf16Length | register.js:43 | `length` counts UTF-16 code units: between one and two per character, and exactly one per character inside the Basic Multilingual Plane. |
| JsString.Utf16LengthOfChar | register.js:43 | One character counts one code unit inside the Basic Multilingual Plane and two outside it. |
| JsString.Utf16LengthAppend | register.js:43 | The code-unit length of a concatenation is the sum of the two lengths. |
| JsString.ParseInt | watch.js:116 | `parseInt` gives NaN for blank input, and for input whose first non-blank character is neither a digit nor a sign. A negative result comes only from a leading minus. |
| JsString.ParseIntSkipsWhitespace | watch.js:116 | Leading whitespace does not change what `parseInt` reads. |
| JsString.ParseIntOfMinus | watch.js:116 | A minus sign in front of a number that `parseInt` reads negates it. |
| JsString.NatToString | watch.js:172 | A number is rendered as a non-empty run of decimal digits with no leading zero. |
| JsString.ParseIntOfNatToString | watch.js:116 | `parseInt` reads back the decimal rendering of every natural number. |
| Favorites.GetFavorites | details-integration.js:9-13 | The stored list, or the empty list when nothing is stored. |
| Favorites.IndexOf | details-integration.js:23 | `findIndex` is -1 exactly when no entry carries the id; otherwise it is the first entry carrying it. |
| Favorites.NewFavorite | details-integration.js:28-34 | The pushed record carries the id, and its title is `title_english` when truthy, else `title`. Its image, type and score are the item's. |
| Favorites.Toggled | details-integration.js:22-40 | The list after a toggle: the read list with a new record appended when no entry carries the id, else the read list without its first entry carrying the id. |
| Favorites.ToggleFavorite | details-integration.js:21-44 | The new list is the toggle of the stored one. It is written back under `userFavorites` with no other key changed. The list returned is the list persisted. |
| Favorites.ToggleAppendsWhenAbsent | details-integration.js:25-35 | With no entry for the id, exactly one record is appended at the end and every earlier entry is kept. |
| Favorites.ToggleRemovesFirstMatch | details-integration.js:36-39 | With an entry for the id, exactly the first such entry is removed; every other entry keeps its relative order. |
| Favorites.ToggleCounts | details-integration.js:23-39 | A toggle adds one occurrence of the id when there was none, and removes exactly one otherwise. Every other id's occurrences are unchanged. |
| Favorites.ToggleLength | details-integration.js:25-39 | The length changes by exactly +1 when the id was absent and -1 when it was present. |
| Favorites.ToggleKeepsUniqueAndFlips | details-integration.js:23-39 | On a list with unique ids, ids stay unique and the id's membership flips. |
| Favorites.ToggleTwiceRestores | details-integration.js:21-44 | Toggling an absent id twice gives back the original list. |
| Auth.GetLoggedInUser | auth-header.js:19-22 | Returns null exactly when the session key is absent, else the stored user. |
| Auth.RegisteredUser | auth-header.js:115 | The last registered user is null exactly when none is stored, else the stored record. |
| Auth.Logout | auth-header.js:28-35 | Removes the session key and nothing else; afterwards nobody is logged in. The browser is then sent to `index.html`. |
| Auth.UserToLog | auth-header.js:114-137 | A registered user whose name matches, ignoring case, takes priority. Otherwise the default user when its name matches. Nobody otherwise. A chosen user's name always matches the entered one. |
| Auth.SimulateLogin | auth-header.js:114-142 | Succeeds iff some user matches. On failure storage is untouched. On success the chosen user is stored under the session key, the only key written, and becomes the logged-in user. The password is never consulted. |
| Auth.UserToLogIgnoresCase | auth-header.js:118-130 | Two names that lower-case alike log in the same user. |
| Auth.UserToLogOfLowered | auth-header.js:118 | Lower-casing the entered name first changes nothing. |
| Auth.RegisteredShadowsDefault | auth-header.js:120-132 | A registered user with the default user's name, in any case, is chosen over the default user. |
| Auth.DefaultUserInAnyCase | auth-header.js:130 | "ANIMEFAN2025" logs in the default user "AnimeFan2025". |
| Login.Classify | login.js:39-62 | Success iff the trimmed e-mail and password both equal the test account's. Wrong password iff the e-mail matches and the password does not. Unknown user iff the e-mail does not match. |
| Login.Redirect | login.js:49-51 | The browser is sent to `index.html` on success and only then. |
| Login.ClassifyOfTrimmed | login.js:39-40 | Pre-trimmed inputs classify as the raw inputs do. |
| Login.RightPasswordWrongEmail | login.js:58-61 | The correct password under another e-mail is an unknown user and causes no redirect. |
| Register.Validate | register.js:32-56 | The checks run in order: mismatch, then length under 6 UTF-16 units, then the taken e-mail. The first that fails decides. Success iff all pass, carrying the raw username. |
| Register.Redirect | register.js:56-62 | The browser is sent to `login.html` on success and only then. |
| Register.MismatchReportedFirst | register.js:37-46 | A mismatch is reported even when the password is also short and the e-mail taken. |
| Register.SixCharactersSuffice | register.js:43-46 | Exactly six code units pass the length check. |
| Register.UsernameNotValidated | register.js:56 | The username takes no part in whether registration succeeds. |
| Register.TakenEmailDetectedAfterTrim | register.js:49-52 | An e-mail that trims to the taken one is rejected, once both password checks pass. |
| Theme.InitialTheme | theme-toggle.js:13-22 | A truthy stored theme applies verbatim, whatever its value. Otherwise 'dark' when the system prefers dark, else 'light'. |
| Theme.NextTheme | theme-toggle.js:31 | 'light' becomes 'dark' and anything else becomes 'light'. The theme always changes. |
| Theme.IconClasses | theme-toggle.js:48-61 | The sun is shown iff the theme is 'dark', the moon otherwise, with the other icon removed and every other class kept. |
| Theme.TogglesCycle | theme-toggle.js:29-41 | After one click the theme is 'light' or 'dark', and from then on two clicks bring it back. |
| Theme.ToggleTwiceRestores | theme-toggle.js:31 | On 'light' or 'dark', two clicks restore the theme. |
| Theme.ClickedThemeSurvivesReload | theme-toggle.js:13-15 | The theme a click stores is the theme the next page load applies, whatever the system preference. |
| Theme.ThemePage.Load | theme-toggle.js:9-25 | The page applies the initial theme from the stored value and the preference, and sets the icon to match. Nothing is written to storage. |
| Theme.ThemePage.UpdateToggleIcon | theme-toggle.js:48-61 | Sets the icon's classes for the theme, or does nothing on a page without the icon. |
| Theme.ThemePage.Click | theme-toggle.js:29-41 | Flips the theme and writes it to both the attribute and storage, so they agree afterwards; the icon matches. Without a toggle button nothing changes. |

## Left out

- HTTP, `fetch`, `response.json()`, `async`/`await` and CORS. Each request is an injected answer in `Watch.Network`, and everything runs in sequence.
- URL building with `encodeURIComponent` and the providers' base URLs. The network is keyed by the request's parameters, not by the URL.
- DOM writes: `renderPlayer`, `displayError`, the progress messages, `showMessage`, `updateAuthHeader`, `console` logging, and `setTimeout` delays.
  - Errors are returned as a structured `Watch.Failure`; `Watch.Message` gives the text shown.
  - Redirects are returned as the target page: `Login.Redirect`, `Register.Redirect` and the result of `Auth.Logout`. `window.location.replace` and `href` assignment themselves are not modelled.
- Watch.LoadEpisodeSource: the "Lecture : …" heading it writes is not modelled.
- JSON parsing and serialisation of local storage, including corrupt data and a stored empty string.
  - Each page's store is typed by what it keeps: `seq<Favorite>`, `User` or `string`.
  - The browser has a single `localStorage` object, but the pages use disjoint keys, so the stores never interact.
- `window.matchMedia` is the boolean `prefersDark`.
- Page elements that may be missing are the booleans `hasToggle` and `hasIcon`.
- JsString.ToLower: lower-cases ASCII letters only, not full Unicode case mapping.
- JsString.ParseInt: unbounded integers, so precision above 2^53 is not modelled. A NaN episode matches nothing, as `===` on NaN is false.
- `Watch.Episode.number` is an optional integer. A number stored as a string, or a fractional number, never equals the parsed episode under `===`, so it is `None`.
- Watch.TryProviders: the loop of `loadEpisodeSource` is split into its own method, so it can be proved for every provider table. `LoadEpisodeSource` calls it with the three-provider table.
- Favorites.NewFavorite: an item without `images` (or without `images.jpg`) makes `toggleFavorite` throw before anything is stored. `ItemData.imageUrl` is always present, so the model cannot express that throw.
- `details.js` and `api-integration.js` only build HTML strings around single Jikan requests.
- The Google sign-in buttons only show a message.
