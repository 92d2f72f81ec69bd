/**
 * The playback session: the player's module-level state (`songs`, `currFolder`,
 * the `Audio` element's `src`, `paused` and `volume`) together with the parts of
 * the page its handlers write (the song-info and song-time texts, the slider
 * value, and which icon the play and volume buttons show).
 *
 * `Player` is the state as a value and its member functions are the handlers as
 * state transitions; `Session` holds the same state in mutable fields and its
 * methods are proved to perform those transitions.
 *
 * `encodeURIComponent` is a parameter `encode`, and whether `decodeURI` accepts
 * a name (rather than throwing `URIError`) is a parameter `decodes`; the outcome
 * of `Audio.play()`
 * (allowed, or rejected by the browser's autoplay policy) is a parameter
 * `allowed`; a folder listing is given as its links, or `None` when fetching it
 * threw.
 */
module Playback {
  import opened Wrappers
  import opened JsBuiltins
  import opened Listings

  /** A volume in percent: the slider's 0..100, and 100 times `Audio.volume`. */
  type Percent = v: int | 0 <= v <= 100

  /** The volume the mute button restores, 0.5 of the full volume. */
  const UnmuteVolume: Percent := 50

  /** What `playMusic` writes into the song-time text. */
  const TimeReset: string := "00:00 / 00:00"

  /** A possibly-undefined string inside a template literal. */
  function Text(v: Option<string>): (s: string)
    ensures v.Some? ==> s == v.value
  {
    match v
    case None => "undefined"
    case Some(s) => s
  }

  /** A possibly-undefined string assigned to `textContent`, which clears it. */
  function Content(v: Option<string>): (s: string)
    ensures v.Some? ==> s == v.value
  {
    match v
    case None => ""
    case Some(s) => s
  }

  /**
   * The audio source `playMusic` loads: `/songs/${currFolder}/${encodeURIComponent(track)}`.
   * Its last `/`-segment, the part the next and previous buttons look up, is the
   * encoded track name whenever that name has no '/'.
   */
  function SourcePath(folder: Option<string>, track: Option<string>, encode: string -> string): (r: string)
    ensures '/' !in encode(Text(track)) ==> LastPiece(r, '/') == encode(Text(track))
  {
    var dir, name := "/songs/" + Text(folder), encode(Text(track));
    var r := dir + "/" + name;
    assert r == dir + ['/'] + name;
    if '/' !in name then (LastPieceOfTail(dir, '/', name); r) else r
  }

  /** `decodeURI` accepts every song name; an undefined one reads "undefined". */
  predicate AllDecode(songs: seq<Option<string>>, decodes: string -> bool)
  {
    forall k :: 0 <= k < |songs| ==> decodes(Text(songs[k]))
  }

  /** `encodeURIComponent` escapes '/', so no encoded name holds one. */
  ghost predicate KeepsNoSlash(encode: string -> string)
  {
    forall t :: '/' !in encode(t)
  }

  datatype Player = Player(
    songs: seq<Option<string>>,
    currFolder: Option<string>,
    src: string,
    paused: bool,
    volume: Percent,
    slider: Percent,
    muteIcon: bool,
    pauseIcon: bool,
    songInfo: string,
    songTime: string)
  {
    /** The volume button shows the mute icon exactly when the volume is 0. */
    predicate Valid()
    {
      muteIcon == (volume == 0)
    }

    /** `currentSong.play()` resolved at once: plays and shows the pause icon, or nothing. */
    function Play(allowed: bool): (r: Player)
      ensures r.paused == (paused && !allowed)
      ensures r.pauseIcon == (pauseIcon || allowed)
      ensures r.(paused := paused, pauseIcon := pauseIcon) == this
    {
      if allowed then this.(paused := false, pauseIcon := true) else this
    }

    /** `currentSong.pause()` and the play icon. */
    function Pause(): (r: Player)
      ensures r.paused && !r.pauseIcon
      ensures r.(paused := paused, pauseIcon := pauseIcon) == this
    {
      this.(paused := true, pauseIcon := false)
    }

    /**
     * `playMusic(track, pause)`: load the track of the current folder (which
     * pauses the element), show its name, reset the time text, and unless
     * `pause` try to play it.
     */
    function PlayMusic(track: Option<string>, pause: bool, allowed: bool, encode: string -> string): (r: Player)
      ensures r.src == SourcePath(currFolder, track, encode)
      ensures r.songInfo == Content(track) && r.songTime == TimeReset
      ensures r.paused == (pause || !allowed)
      ensures r.pauseIcon == (pauseIcon || (!pause && allowed))
      ensures r.songs == songs && r.currFolder == currFolder
      ensures r.volume == volume && r.slider == slider && r.muteIcon == muteIcon
    {
      var loaded := this.(src := SourcePath(currFolder, track, encode), paused := true,
                          songInfo := Content(track), songTime := TimeReset);
      if pause then loaded else loaded.Play(allowed)
    }

    /** The play button: resume when paused, otherwise pause. */
    function TogglePlay(allowed: bool): (r: Player)
      ensures paused ==> r == Play(allowed)
      ensures !paused ==> r.paused && !r.pauseIcon
      ensures r.(paused := paused, pauseIcon := pauseIcon) == this
    {
      if paused then Play(allowed) else Pause()
    }

    /** `songs.indexOf(currentSong.src.split('/').pop())`. */
    function CurrentIndex(): (i: int)
      ensures -1 <= i < |songs|
      ensures i == -1 <==> Some(LastPiece(src, '/')) !in songs
      ensures 0 <= i ==> songs[i] == Some(LastPiece(src, '/'))
    {
      IndexOf(songs, Some(LastPiece(src, '/')))
    }

    /**
     * The next button: play the song after the current index, if there is one. It
     * does nothing at the last song and with no songs, and plays the first song
     * when the current one is not found.
     */
    function Next(allowed: bool, encode: string -> string): (r: Player)
      ensures CurrentIndex() == |songs| - 1 || |songs| == 0 ==> r == this
      ensures CurrentIndex() == -1 && |songs| > 0 ==> r == PlayMusic(songs[0], false, allowed, encode)
      ensures 0 <= CurrentIndex() < |songs| - 1 ==>
        r == PlayMusic(songs[CurrentIndex() + 1], false, allowed, encode)
    {
      var i := CurrentIndex();
      if i < |songs| - 1 then PlayMusic(songs[i + 1], false, allowed, encode) else this
    }

    /**
     * The previous button: play the song before the current index, if there is
     * one. At the first song, or when the current song is not found, it does
     * nothing.
     */
    function Previous(allowed: bool, encode: string -> string): (r: Player)
      ensures CurrentIndex() <= 0 ==> r == this
      ensures CurrentIndex() > 0 ==> r == PlayMusic(songs[CurrentIndex() - 1], false, allowed, encode)
    {
      var i := CurrentIndex();
      if i > 0 then PlayMusic(songs[i - 1], false, allowed, encode) else this
    }

    /** The volume slider's input: volume and icon follow the slider value. */
    function SetVolume(value: Percent): (r: Player)
      ensures r.volume == value && r.slider == value
      ensures r.muteIcon <==> r.volume == 0
      ensures r.(volume := volume, slider := slider, muteIcon := muteIcon) == this
    {
      this.(volume := value, slider := value, muteIcon := !(value > 0))
    }

    /** The volume button: mute when audible, otherwise restore half volume. */
    function ToggleMute(): (r: Player)
      ensures volume > 0 ==> r.volume == 0 && r.slider == 0 && r.muteIcon
      ensures volume == 0 ==> r.volume == UnmuteVolume && r.slider == UnmuteVolume && !r.muteIcon
      ensures r.(volume := volume, slider := slider, muteIcon := muteIcon) == this
    {
      if volume > 0 then this.(volume := 0, slider := 0, muteIcon := true)
      else this.(volume := UnmuteVolume, slider := UnmuteVolume, muteIcon := false)
    }

    /**
     * `getSongs(folder)`'s effect and result: the folder becomes current before
     * anything is fetched. A fetch that throws leaves `songs` alone and returns
     * nothing. A listing replaces `songs` by its track list; that list is returned
     * unless `decodeURI` rejects one of its names while the song list is drawn,
     * in which case the error is caught and nothing is returned.
     */
    function GetSongs(folder: string, listing: Option<seq<string>>, decodes: string -> bool)
      : (r: (Player, seq<Option<string>>))
      ensures r.0.currFolder == Some(folder)
      ensures listing.None? ==> r.1 == [] && r.0 == this.(currFolder := Some(folder))
      ensures listing.Some? ==>
        var tracks := TrackList(listing.value, folder);
        r.0 == this.(currFolder := Some(folder), songs := tracks) &&
        r.1 == if AllDecode(tracks, decodes) then tracks else []
    {
      match listing
      case None => (this.(currFolder := Some(folder)), [])
      case Some(hrefs) =>
        var songs := TrackList(hrefs, folder);
        var p := this.(currFolder := Some(folder), songs := songs);
        if AllDecode(songs, decodes) then (p, songs) else (p, [])
    }

    /**
     * `songs = await getSongs(folder); if (songs.length > 0) playMusic(songs[0], pause)`:
     * the start-up load (with `pause`) and a click on an album card (without).
     * The folder becomes current; the songs become the listing's track list when
     * it was fetched and every name decodes, and are empty otherwise; with songs,
     * the first one is loaded from that folder, and without, nothing else changes.
     * The volume controls are never touched.
     */
    function OpenFolder(folder: string, listing: Option<seq<string>>, pause: bool, allowed: bool,
                        encode: string -> string, decodes: string -> bool): (r: Player)
      ensures r.currFolder == Some(folder)
      ensures r.songs == if listing.Some? && AllDecode(TrackList(listing.value, folder), decodes)
                         then TrackList(listing.value, folder) else []
      ensures r.volume == volume && r.slider == slider && r.muteIcon == muteIcon
      ensures |r.songs| == 0 ==> r == this.(currFolder := Some(folder), songs := [])
      ensures |r.songs| > 0 ==>
        r.src == SourcePath(Some(folder), r.songs[0], encode) &&
        r.songInfo == Content(r.songs[0]) && r.songTime == TimeReset &&
        r.paused == (pause || !allowed) && r.pauseIcon == (pauseIcon || (!pause && allowed))
    {
      var (p, found) := GetSongs(folder, listing, decodes);
      var q := p.(songs := found);
      if |found| > 0 then q.PlayMusic(found[0], pause, allowed, encode) else q
    }
  }

  /** The state on page load: nothing loaded, full volume, the play and volume icons. */
  function Initial(slider: Percent): (p: Player)
    ensures p.Valid() && p.songs == [] && p.currFolder.None? && p.paused
    ensures p.volume == 100 && p.src == ""
  {
    Player([], None, "", true, 100, slider, false, false, "", "")
  }

  // ---------------------------------------------------------------------------
  // Lemmas about the transitions
  // ---------------------------------------------------------------------------

  /** The volume handlers keep the volume icon in step with the volume. */
  lemma VolumeHandlersKeepValid(p: Player, value: Percent)
    requires p.Valid()
    ensures p.SetVolume(value).Valid() && p.ToggleMute().Valid()
  {
  }

  /**
   * After `playMusic(t)` the next and previous buttons find the current song by
   * looking up the ENCODED name `encodeURIComponent(t)` among the songs.
   */
  lemma IndexAfterLoad(p: Player, t: string, pause: bool, allowed: bool, encode: string -> string)
    requires '/' !in encode(t)
    ensures p.PlayMusic(Some(t), pause, allowed, encode).CurrentIndex() == IndexOf(p.songs, Some(encode(t)))
  {
  }

  /** Song names that `encodeURIComponent` leaves as they are. */
  ghost predicate PlainNames(songs: seq<Option<string>>, encode: string -> string)
  {
    forall k :: 0 <= k < |songs| && songs[k].Some? ==> encode(songs[k].value) == songs[k].value
  }

  /** No song occurs twice. */
  ghost predicate Distinct(songs: seq<Option<string>>)
  {
    forall j, k :: 0 <= j < k < |songs| ==> songs[j] != songs[k]
  }

  /** A song loaded by `playMusic` is found again at its own index when its name is plain. */
  lemma {:induction false} LoadedIsCurrent(p: Player, i: int, pause: bool, allowed: bool, encode: string -> string)
    requires 0 <= i < |p.songs| && p.songs[i].Some?
    requires KeepsNoSlash(encode) && PlainNames(p.songs, encode) && Distinct(p.songs)
    ensures p.PlayMusic(p.songs[i], pause, allowed, encode).CurrentIndex() == i
  {
    var t := p.songs[i].value;
    IndexAfterLoad(p, t, pause, allowed, encode);
    assert encode(t) == t;
    var j := IndexOf(p.songs, Some(t));
    assert p.songs[j] == p.songs[i];
  }

  /**
   * With plain, distinct names the next button steps one song forward and the
   * previous button one song back, stopping at either end without wrapping.
   */
  lemma {:induction false} SkipSteps(p: Player, i: int, allowed: bool, encode: string -> string)
    requires 0 <= i < |p.songs| && p.songs[i].Some?
    requires KeepsNoSlash(encode) && PlainNames(p.songs, encode) && Distinct(p.songs)
    ensures var q := p.PlayMusic(p.songs[i], false, allowed, encode);
      q.Next(allowed, encode) ==
        if i + 1 < |p.songs| then q.PlayMusic(p.songs[i + 1], false, allowed, encode) else q
    ensures var q := p.PlayMusic(p.songs[i], false, allowed, encode);
      q.Previous(allowed, encode) ==
        if i > 0 then q.PlayMusic(p.songs[i - 1], false, allowed, encode) else q
  {
    LoadedIsCurrent(p, i, false, allowed, encode);
  }

  /**
   * A listing gives names as they appear in URLs, already escaped, and
   * `playMusic(songs[i])` escapes them again. When the twice-escaped name is not a
   * song, the current song is not found: the next button then plays the first
   * song and the previous button does nothing.
   */
  lemma {:induction false} ReEscapedNameIsLost(p: Player, i: int, allowed: bool, encode: string -> string)
    requires 0 <= i < |p.songs| && p.songs[i].Some?
    requires KeepsNoSlash(encode) && Some(encode(p.songs[i].value)) !in p.songs
    ensures var q := p.PlayMusic(p.songs[i], false, allowed, encode);
      q.CurrentIndex() == -1 &&
      q.Next(allowed, encode) == q.PlayMusic(p.songs[0], false, allowed, encode) &&
      q.Previous(allowed, encode) == q
  {
    IndexAfterLoad(p, p.songs[i].value, false, allowed, encode);
  }

  /**
   * Three plain songs of one folder: after loading the first, two presses of
   * next reach the third, and a third press stays there.
   */
  lemma ThreeSongs(p: Player, allowed: bool, encode: string -> string)
    requires p.songs == [Some("a.mp3"), Some("b.mp3"), Some("c.mp3")]
    requires KeepsNoSlash(encode) && PlainNames(p.songs, encode)
    ensures var q0 := p.PlayMusic(p.songs[0], false, allowed, encode);
      var q1 := q0.Next(allowed, encode);
      var q2 := q1.Next(allowed, encode);
      q1 == q0.PlayMusic(Some("b.mp3"), false, allowed, encode) &&
      q2 == q1.PlayMusic(Some("c.mp3"), false, allowed, encode) &&
      q2.Next(allowed, encode) == q2 &&
      LastPiece(q2.src, '/') == "c.mp3"
  {
    var songs := p.songs;
    assert Distinct(songs);
    var q0 := p.PlayMusic(songs[0], false, allowed, encode);
    SkipSteps(p, 0, allowed, encode);
    var q1 := q0.Next(allowed, encode);
    assert q1 == q0.PlayMusic(songs[1], false, allowed, encode);
    SkipSteps(q0, 1, allowed, encode);
    var q2 := q1.Next(allowed, encode);
    SkipSteps(q1, 2, allowed, encode);
  }

  /** Pressing play twice, with playback allowed, restores the paused flag. */
  lemma TogglePlayTwice(p: Player)
    ensures p.TogglePlay(true).TogglePlay(true).paused == p.paused
    ensures p.TogglePlay(true).paused != p.paused
  {
  }

  /**
   * Pressing the volume button twice mutes and restores half volume from any
   * audible volume, not the volume there was; from silence it ends silent.
   */
  lemma ToggleMuteTwice(p: Player)
    ensures var r := p.ToggleMute().ToggleMute();
      r.volume == (if p.volume > 0 then UnmuteVolume else 0) && r.Valid()
  {
  }

  /** Silencing with the slider and then pressing the volume button restores half volume. */
  lemma SliderZeroThenUnmute(p: Player)
    ensures p.SetVolume(0).ToggleMute().volume == UnmuteVolume
  {
  }

  /**
   * One name that `decodeURI` rejects empties the song list of the folder being
   * opened, whatever the other names: nothing is loaded, and the track that was
   * playing stays loaded although its folder is no longer current.
   */
  lemma OpenFolderRejectedName(p: Player, folder: string, hrefs: seq<string>, k: nat, pause: bool,
                               allowed: bool, encode: string -> string, decodes: string -> bool)
    requires k < |TrackList(hrefs, folder)| && !decodes(Text(TrackList(hrefs, folder)[k]))
    ensures var r := p.OpenFolder(folder, Some(hrefs), pause, allowed, encode, decodes);
      r.songs == [] && r.src == p.src && r.currFolder == Some(folder)
  {
  }

  /**
   * After a folder of distinct, plain, decodable names is opened, the next button
   * plays its second song: the first song is found at index 0.
   */
  lemma {:induction false} OpenFolderThenNext(p: Player, folder: string, hrefs: seq<string>, pause: bool,
                                             allowed: bool, encode: string -> string, decodes: string -> bool)
    requires var tracks := TrackList(hrefs, folder);
      |tracks| >= 2 && tracks[0].Some? && AllDecode(tracks, decodes) &&
      KeepsNoSlash(encode) && PlainNames(tracks, encode) && Distinct(tracks)
    ensures var r := p.OpenFolder(folder, Some(hrefs), pause, allowed, encode, decodes);
      r.Next(allowed, encode) == r.PlayMusic(TrackList(hrefs, folder)[1], false, allowed, encode)
  {
    var tracks := TrackList(hrefs, folder);
    var q := p.(currFolder := Some(folder), songs := tracks);
    assert p.OpenFolder(folder, Some(hrefs), pause, allowed, encode, decodes)
        == q.PlayMusic(tracks[0], pause, allowed, encode);
    LoadedIsCurrent(q, 0, pause, allowed, encode);
  }

  // ---------------------------------------------------------------------------
  // The session object
  // ---------------------------------------------------------------------------

  /** The player's state as the script keeps it, in variables its handlers reassign. */
  class Session {
    var songs: seq<Option<string>>
    var currFolder: Option<string>
    var src: string
    var paused: bool
    var volume: Percent
    var slider: Percent
    var muteIcon: bool
    var pauseIcon: bool
    var songInfo: string
    var songTime: string
    const encode: string -> string
    const decodes: string -> bool

    /** The fields as a `Player` value. */
    function State(): (p: Player)
      reads this
      ensures p.songs == songs && p.currFolder == currFolder && p.src == src && p.paused == paused
      ensures p.volume == volume && p.muteIcon == muteIcon
    {
      Player(songs, currFolder, src, paused, volume, slider, muteIcon, pauseIcon, songInfo, songTime)
    }

    ghost predicate Valid()
      reads this
    {
      State().Valid()
    }

    /** A fresh `Audio` element, no songs, no folder yet; `slider0` is the slider's initial value. */
    constructor (encode: string -> string, decodes: string -> bool, slider0: Percent)
      ensures Valid() && State() == Initial(slider0) && this.encode == encode && this.decodes == decodes
    {
      songs := [];
      currFolder := None;
      src := "";
      paused := true;
      volume := 100;
      slider := slider0;
      muteIcon := false;
      pauseIcon := false;
      songInfo := "";
      songTime := "";
      this.encode := encode;
      this.decodes := decodes;
    }

    method Play(allowed: bool)
      requires Valid()
      modifies this
      ensures Valid() && State() == old(State()).Play(allowed)
    {
      if allowed {
        paused := false;
        pauseIcon := true;
      }
    }

    method PlayMusic(track: Option<string>, pause: bool, allowed: bool)
      requires Valid()
      modifies this
      ensures Valid() && State() == old(State()).PlayMusic(track, pause, allowed, encode)
      ensures src == SourcePath(currFolder, track, encode) && songTime == TimeReset
      ensures songs == old(songs) && currFolder == old(currFolder)
    {
      src := "/songs/" + Text(currFolder) + "/" + encode(Text(track));
      paused := true;
      songInfo := Content(track);
      songTime := TimeReset;
      if !pause {
        Play(allowed);
      }
    }

    method TogglePlay(allowed: bool)
      requires Valid()
      modifies this
      ensures Valid() && State() == old(State()).TogglePlay(allowed)
    {
      if paused {
        Play(allowed);
      } else {
        paused := true;
        pauseIcon := false;
      }
    }

    method Next(allowed: bool)
      requires Valid()
      modifies this
      ensures Valid() && State() == old(State()).Next(allowed, encode)
      ensures songs == old(songs) && currFolder == old(currFolder)
    {
      var i := IndexOf(songs, Some(LastPiece(src, '/')));
      assert i == old(State()).CurrentIndex();
      if i < |songs| - 1 {
        PlayMusic(songs[i + 1], false, allowed);
      }
    }

    method Previous(allowed: bool)
      requires Valid()
      modifies this
      ensures Valid() && State() == old(State()).Previous(allowed, encode)
      ensures songs == old(songs) && currFolder == old(currFolder)
    {
      var i := IndexOf(songs, Some(LastPiece(src, '/')));
      assert i == old(State()).CurrentIndex();
      if i > 0 {
        PlayMusic(songs[i - 1], false, allowed);
      }
    }

    method SetVolume(value: Percent)
      requires Valid()
      modifies this
      ensures Valid() && State() == old(State()).SetVolume(value)
    {
      volume := value;
      slider := value;
      muteIcon := !(volume > 0);
    }

    method ToggleMute()
      requires Valid()
      modifies this
      ensures Valid() && State() == old(State()).ToggleMute()
    {
      if volume > 0 {
        volume := 0;
        slider := 0;
        muteIcon := true;
      } else {
        volume := UnmuteVolume;
        slider := UnmuteVolume;
        muteIcon := false;
      }
    }

    method GetSongs(folder: string, listing: Option<seq<string>>) returns (found: seq<Option<string>>)
      requires Valid()
      modifies this
      ensures Valid() && (State(), found) == old(State()).GetSongs(folder, listing, decodes)
      ensures currFolder == Some(folder)
    {
      currFolder := Some(folder);
      match listing {
        case None =>
          found := [];
        case Some(hrefs) =>
          songs := TrackList(hrefs, folder);
          if AllDecode(songs, decodes) {
            found := songs;
          } else {
            found := [];
          }
      }
    }

    method OpenFolder(folder: string, listing: Option<seq<string>>, pause: bool, allowed: bool)
      requires Valid()
      modifies this
      ensures Valid() && State() == old(State()).OpenFolder(folder, listing, pause, allowed, encode, decodes)
      ensures currFolder == Some(folder)
      ensures songs == if listing.Some? && AllDecode(TrackList(listing.value, folder), decodes)
                       then TrackList(listing.value, folder) else []
    {
      var found := GetSongs(folder, listing);
      songs := found;
      if |found| > 0 {
        PlayMusic(found[0], pause, allowed);
      }
    }
  }
}
