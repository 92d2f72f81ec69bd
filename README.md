# Spotify-clone player logic in Dafny

This project models the logic inside the browser script of a small web music
player, `public/js/script.js`. The script lists album folders and their `.mp3`
tracks from server directory listings, plays tracks through one `Audio` element,
and wires up the play, previous, next, volume and mute controls. The model covers
four parts:

- **Time formatter** (`time_format.dfy`, module `TimeFormat`). `secondsToMinutesSeconds`
  works on whole seconds. A negative count gives `"00:00"`. Otherwise the result is
  the minutes and the seconds past the minute, each zero-padded to two digits. The
  minutes part grows past two digits from 100 minutes on, because padding never
  truncates. A reader `ParseClock` inverts the formatter, which shows that distinct
  counts never display alike.
- **Track-list extraction** (`listings.dfy`, module `Listings`). From the hrefs of a
  folder listing, `TrackList` keeps those ending in `.mp3`, in document order. Each
  kept href becomes `href.split("/" + folder + "/")[1]`: the text between the first
  `/{folder}/` and the next one. It is `undefined` (`None`) when the href lacks the
  separator.
- **Album-folder extraction** (`listings.dfy`). The album links are those whose href
  contains `/songs/` and not `.htaccess`. A folder's name is the last non-empty
  `/`-segment of the link's path.
- **Playback session** (`playback.dfy`, module `Playback`). The `Player` datatype
  holds the script's module-level state: `songs`, `currFolder`, and the audio
  element's `src`, `paused` and volume. It also holds what the handlers write to the
  page: the song-info and song-time texts, the slider value, and the icons of the
  play and volume buttons. Each handler is a member function of `Player` giving the
  next state. The `Session` class keeps the same state in fields that its methods
  reassign, and each method is proved to perform the matching transition.

The JavaScript built-ins these parts rely on are modelled in `builtins.dfy` (module
`JsBuiltins`): `split`, `join`, `indexOf`, `endsWith`, `includes`, `padStart`, and
`toString` of a non-negative integer. `Option` is in `wrappers.dfy`.

Behaviour of the script worth noting, kept as the script has it:

- The next button recovers the current index with `indexOf` on the last `/`-segment
  of `src`. When that segment is not a song, the index is -1, so "next" plays the
  first song instead of doing nothing. "Previous" does nothing in that case.
- Track names come from listing URLs, where they are already percent-escaped.
  `playMusic(songs[i])` escapes them a second time, so after a song whose name
  needed escaping, the next button can no longer find it
  (`Playback.ReEscapedNameIsLost`).
- `getSongs` records the folder as current before fetching, even when the fetch
  then fails. It does not clear `src`: the previously loaded track stays loaded
  until a new one is played.
- `getSongs` draws the song list with `decodeURI(song)` inside its `try` block,
  after `songs` has been assigned. A name that `decodeURI` rejects, such as
  `%FF.mp3` or `100%.mp3`, throws; the `catch` returns `[]`, and the caller then
  sets `songs` to `[]` and plays nothing (`Playback.OpenFolderRejectedName`).
- The album-card click handlers are attached (line 119) before any card exists:
  the cards are appended only after each card's `info.json` has been fetched, and
  every `innerHTML +=` rebuilds the earlier cards anyway. As written, a click on an
  album card therefore never reaches `getSongs`. `OpenFolder` without `pause`
  models what such a click would do if its handler were attached.
- `fetch` does not fail on an HTTP error status. An error page is parsed like a
  listing, so it normally yields no tracks. Only a thrown error is modelled as
  `None`.
- Un-muting always restores half volume, not the volume before muting.

## Model

| member | source | states |
|---|---|---|
| `TimeFormat.SecondsToMinutesSeconds` | public/js/script.js:12-18 | a negative count is displayed as exactly "00:00" |
| `TimeFormat.FormatShape` | public/js/script.js:15-17 | for a non-negative count: digits for the minutes, a colon, then exactly two digits for the seconds; the values are the floored minutes and the seconds mod 60, at most 59; the minutes take two digits below 100 minutes, and from there on they are the plain decimal text of the minutes with no leading zero |
| `TimeFormat.PaddedValue` | public/js/script.js:15-16 | `toString().padStart(2, '0')` keeps the number's value, has at least two digits, and has exactly two below 100 |
| `TimeFormat.ParseFormat` | public/js/script.js:12-18 | reading the displayed text back gives the original non-negative count |
| `TimeFormat.FormatInjective` | public/js/script.js:15-17 | two different non-negative counts are never displayed alike |
| `TimeFormat.FormatExample` | public/js/script.js:15-17 | 125 seconds show as "02:05"; 6000 seconds show as "100:00" |
| `JsBuiltins.Split` | public/js/script.js:32 | `split` on a non-empty separator gives at least one piece; joining the pieces with the separator gives the input back; no piece contains the separator |
| `JsBuiltins.SplitCutsLeftmost` | public/js/script.js:32 | every cut of `split` is at the leftmost occurrence of the separator in what remains from the start of its piece, so an overlapping separator is cut where it first starts |
| `JsBuiltins.LastPiece` | public/js/script.js:153 | `split('/').pop()` has no '/', is a suffix of its input, and is either all of it or preceded by '/' |
| `JsBuiltins.IndexOf` | public/js/script.js:158 | `indexOf` gives -1 exactly when the value is absent, and otherwise the first index holding it |
| `JsBuiltins.NatToString` | public/js/script.js:15-16 | the decimal digits of the number, with no leading zero; one digit below 10, at most two below 100 |
| `JsBuiltins.PadStart` | public/js/script.js:15-16 | `padStart` fills on the left up to the width, never truncates, and ends with the original string |
| `Listings.TrackName` | public/js/script.js:32 | `split("/" + folder + "/")[1]` is the text after the first separator, up to the next separator or the end, and `undefined` when there is no separator |
| `Listings.TrackNameShape` | public/js/script.js:32 | the track name is defined exactly when the href contains the separator; it then starts right after the first occurrence, no occurrence of the separator starts inside it, and it runs to the end or to the next occurrence |
| `Listings.FilterMap` | public/js/script.js:30-32 | `filter(keep).map(f)` holds one entry per accepted element, in order, and nothing else; entry k is `f` of the k-th accepted element |
| `Listings.FilterMapAppend` | public/js/script.js:30-32 | filtering and mapping two runs one after the other gives their results one after the other |
| `Listings.TrackList` | public/js/script.js:30-32 | the list holds one entry per ".mp3" href, in href order, and nothing else; entry k is the name of the k-th ".mp3" href; it is never longer than the input |
| `Listings.TrackListAppend` | public/js/script.js:30-32 | listing two runs of links one after the other gives their track lists one after the other |
| `Listings.NonEmptyPieces` | public/js/script.js:95 | `filter(Boolean)` keeps the non-empty pieces in their order and with their repeats, and nothing else |
| `Listings.FolderName` | public/js/script.js:95 | the folder name is the last non-empty piece of the path split on '/', and `undefined` when every piece is empty |
| `Listings.FolderNameTrim` | public/js/script.js:95 | trailing slashes in the path do not change the folder name |
| `Listings.FolderNameIsLastSegment` | public/js/script.js:95 | the folder name is the last `/`-segment of the path without its trailing slashes; there is none when nothing else is left |
| `Listings.FolderNameShape` | public/js/script.js:95 | the name is missing exactly when the path is all slashes; otherwise it is non-empty, has no '/', and ends the path before the trailing slashes |
| `Listings.IsAlbumLink` | public/js/script.js:93 | a link is an album link exactly when "/songs/" occurs in its href and ".htaccess" does not |
| `Listings.AlbumFolders` | public/js/script.js:92-95 | one folder per link that contains "/songs/" and not ".htaccess", in link order, and nothing else; entry k is the folder name of the k-th such link |
| `Playback.Player.Play` | public/js/script.js:72-75 | a successful `play()` clears `paused` and shows the pause icon; a rejected one changes nothing |
| `Playback.Player.Pause` | public/js/script.js:147-148 | `pause()` sets `paused` and shows the play icon; nothing else changes |
| `Playback.Player.PlayMusic` | public/js/script.js:66-80 | `src` becomes "/songs/" + folder + "/" + the encoded track; the time text resets to "00:00 / 00:00"; the element plays only without `pause` and when allowed; songs, folder and volume are unchanged |
| `Playback.Player.TogglePlay` | public/js/script.js:141-150 | when paused it tries to play; otherwise it pauses and shows the play icon; nothing else changes |
| `Playback.Player.CurrentIndex` | public/js/script.js:153 | the index is -1 exactly when the last segment of `src` is not a song, and otherwise the first song equal to it |
| `Playback.Player.Next` | public/js/script.js:157-160 | next does nothing at the last song or with no songs; plays the first song when the current one is not found; otherwise plays the following song |
| `Playback.Player.Previous` | public/js/script.js:152-155 | previous does nothing at the first song or when the current one is not found; otherwise plays the preceding song |
| `Playback.Player.SetVolume` | public/js/script.js:177-181 | the volume becomes the slider value, and the mute icon shows exactly when it is 0 |
| `Playback.Player.ToggleMute` | public/js/script.js:183-193 | an audible volume becomes 0 with the slider at 0 and the mute icon; silence becomes 50% with the slider at 50 and the volume icon |
| `Playback.Player.GetSongs` | public/js/script.js:21-62 | the folder becomes current whatever happens; a failed fetch returns nothing and keeps the songs; a listing replaces the songs by its track list, which is returned when `decodeURI` accepts every name, and otherwise nothing is returned |
| `Playback.Player.OpenFolder` | public/js/script.js:119-124 | the folder becomes current; the songs become the track list when it was fetched and every name decodes, and are empty otherwise; with songs, the first one is loaded from that folder, its name shown and the time text reset, and it plays only without `pause` and when allowed; without, nothing else changes; the volume, the slider and the mute icon are always kept |
| `Playback.Initial` | public/js/script.js:2-4 | the starting state has no songs, no folder and an empty `src`, is paused at full volume, and has a consistent volume icon |
| `Playback.VolumeHandlersKeepValid` | public/js/script.js:177-193 | the slider and the volume button keep the volume icon in step with the volume |
| `Playback.SourcePath` | public/js/script.js:67 | the last `/`-segment of the source that `playMusic` loads is the encoded track name whenever that has no '/' |
| `Playback.IndexAfterLoad` | public/js/script.js:153 | after playing a track, previous and next look up its encoded name among the songs |
| `Playback.LoadedIsCurrent` | public/js/script.js:153 | with distinct names that encoding leaves unchanged, a song that was played is found again at its own index |
| `Playback.SkipSteps` | public/js/script.js:152-160 | with such names, next moves one song forward and previous one song back; both stop at the ends without wrapping |
| `Playback.ReEscapedNameIsLost` | public/js/script.js:158 | when the re-encoded name of a played song is not in the list, next plays the first song and previous does nothing |
| `Playback.ThreeSongs` | public/js/script.js:157-160 | with songs a, b and c: after a, two presses of next reach c, and a third press stays on c |
| `Playback.TogglePlayTwice` | public/js/script.js:141-150 | one press flips the paused flag; two presses with playback allowed restore it |
| `Playback.ToggleMuteTwice` | public/js/script.js:183-193 | two presses end at 50% from any audible volume and at 0 from silence |
| `Playback.SliderZeroThenUnmute` | public/js/script.js:177-193 | setting the slider to 0 and then pressing the volume button gives 50% |
| `Playback.OpenFolderRejectedName` | public/js/script.js:30-61 | one track name that `decodeURI` rejects leaves the opened folder with no songs, nothing newly loaded, and the previous track still loaded |
| `Playback.OpenFolderThenNext` | public/js/script.js:157-160 | after opening a folder of distinct, plain, decodable names, the next button plays its second song |
| `Playback.Session.constructor` | public/js/script.js:2-4 | a new session is in the starting state |
| `Playback.Session.Play` | public/js/script.js:72-75 | the fields change as `Player.Play` says: a resolved `play()` clears `paused` and shows the pause icon |
| `Playback.Session.PlayMusic` | public/js/script.js:66-80 | the fields change as `Player.PlayMusic` says; `src` and the time text are set; songs and folder stay |
| `Playback.Session.TogglePlay` | public/js/script.js:141-150 | the fields change as `Player.TogglePlay` says |
| `Playback.Session.Next` | public/js/script.js:157-160 | the fields change as `Player.Next` says; songs and folder stay |
| `Playback.Session.Previous` | public/js/script.js:152-155 | the fields change as `Player.Previous` says; songs and folder stay |
| `Playback.Session.SetVolume` | public/js/script.js:177-181 | the fields change as `Player.SetVolume` says |
| `Playback.Session.ToggleMute` | public/js/script.js:183-193 | the fields change as `Player.ToggleMute` says |
| `Playback.Session.GetSongs` | public/js/script.js:21-62 | the fields and the result are as `Player.GetSongs` says, including the `decodeURI` failure; the folder is current |
| `Playback.Session.OpenFolder` | public/js/script.js:119-124 | the fields change as `Player.OpenFolder` says; the folder is current; the songs are the listing's track list when every name decodes, and empty otherwise |

## Left out

- HTML parsing (`DOMParser`, `getElementsByTagName`) and the network (`fetch`,
  `response.text()`, `info.json`). A folder listing is given as its hrefs, or `None`
  when fetching it threw. An album link is given as its `href` and the `pathname`
  of its URL, because `new URL(...)` parsing is not modelled.
- The album cards: fetching each folder's `info.json`, rendering the card, and the
  order in which the asynchronous callbacks finish. This is concurrent I/O, so
  `AlbumFolders` gives the folders in link order, which is the order the fetches
  are started.
- All `innerHTML` rendering, `querySelector`, event wiring, the song-list click
  handler (it decodes the displayed name and calls `playMusic`, which is modelled
  for any track), and the hamburger and close buttons. These are UI only.
- The seek bar and the progress circle. Both compute with floating-point positions
  and durations.
- The `timeupdate` handler's time text. It formats the floating-point `currentTime`
  and `duration`, and a `duration` of NaN.
- `TimeFormat.SecondsToMinutesSeconds`: takes whole seconds, so the NaN branch and
  an infinite `duration` are not modelled. `Infinity` passes the guard on line 13
  and gives "Infinity:NaN". For a finite non-negative `s`, flooring `s / 60` and
  `s % 60` gives the same values as flooring `s` first. The output is modelled
  exactly only for counts a double holds exactly, below 2^53: beyond that the
  double arithmetic rounds, and from 10^21 minutes on `toString` switches to
  exponent notation.
- `Playback.Player.Play`: the promise returned by `play()` is treated as settled at
  once, so the pause icon appears in the same step. Whether the browser allows
  playback is the parameter `allowed`. A `play()` that is accepted but whose
  resource then fails to load (for instance the twice-escaped `src` of
  `Playback.ReEscapedNameIsLost`, which the server does not have) rejects its
  promise in the browser: `paused` ends false while the `.then` that shows the
  pause icon never runs, so the play button's icon stays as it was. The model,
  given `allowed`, shows the pause icon; it does not follow the load failure.
- `Playback.Player.TogglePlay`: a rejected `play()` in the play button's handler is
  an unhandled rejection. It is modelled as changing nothing.
- The meaning of `encodeURIComponent`, `decodeURI` and `replaceAll("%20", " ")`.
  Encoding is an arbitrary function `encode`, assumed only to produce no '/'
  where a lemma needs it; `LoadedIsCurrent`, `SkipSteps`, `ThreeSongs` and
  `OpenFolderThenNext` also assume that it leaves the song names unchanged
  (`PlainNames`). Whether `decodeURI` accepts a name is an arbitrary predicate
  `decodes`; which names it rejects (malformed escapes, escapes that are not
  UTF-8) is not modelled. The `src` getter's absolute URL is modelled as the path
  that was assigned; its last `/`-segment is the same.
- The end of playback (`ended`, which sets `paused`) and the initial texts of the
  song-info and song-time elements, which come from the page's HTML.
- `Playback.Player.GetSongs`, `Playback.Player.OpenFolder`, `Playback.Session.GetSongs`
  and `Playback.Session.OpenFolder` run as one atomic step. In the script, the
  awaits on lines 24-25 let two calls interleave: an earlier, slower response
  could set `songs` after a later call had already made its own folder current,
  and the first song would then be loaded from the wrong folder. Overlapping
  calls are not modelled.
