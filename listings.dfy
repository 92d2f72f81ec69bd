/**
 * The two listing parsers: the track list of one album folder (the `filter`/`map`
 * chain of `getSongs`) and the album folders of the root listing (the link filter
 * and folder-name extraction of `displayAlbums`). The directory-listing documents
 * are already reduced to their links; parsing HTML is not part of this model.
 */
module Listings {
  import opened Wrappers
  import opened JsBuiltins

  /** The positions `i` of `s` with `keep(s[i])`, in increasing order. */
  function Positions<T>(s: seq<T>, keep: T -> bool): (r: seq<nat>)
    ensures forall k :: 0 <= k < |r| ==> r[k] < |s| && keep(s[r[k]])
    ensures forall k, m :: 0 <= k < m < |r| ==> r[k] < r[m]
    ensures forall i :: 0 <= i < |s| && keep(s[i]) ==> i in r
    decreases |s|
  {
    if |s| == 0 then []
    else
      var init := Positions(s[..|s| - 1], keep);
      if keep(s[|s| - 1]) then init + [|s| - 1] else init
  }

  /**
   * `s.filter(keep).map(f)`: one entry per element that `keep` accepts and
   * nothing else, in order; entry `k` is `f` of the `k`-th accepted element.
   */
  function FilterMap<T, U>(s: seq<T>, keep: T -> bool, f: T -> U): (r: seq<U>)
    ensures var pos := Positions(s, keep);
      |r| == |pos| && |r| <= |s| &&
      forall k :: 0 <= k < |r| ==> r[k] == f(s[pos[k]])
    decreases |s|
  {
    if |s| == 0 then []
    else
      var init := FilterMap(s[..|s| - 1], keep, f);
      assert forall i :: 0 <= i < |s| - 1 ==> s[..|s| - 1][i] == s[i];
      if keep(s[|s| - 1]) then init + [f(s[|s| - 1])] else init
  }

  /** Filtering and mapping two runs one after the other gives their results one after the other. */
  lemma {:induction false} FilterMapAppend<T, U>(a: seq<T>, b: seq<T>, keep: T -> bool, f: T -> U)
    ensures FilterMap(a + b, keep, f) == FilterMap(a, keep, f) + FilterMap(b, keep, f)
    decreases |b|
  {
    if |b| > 0 {
      var b' := b[..|b| - 1];
      assert (a + b)[..|a + b| - 1] == a + b';
      assert (a + b)[|a + b| - 1] == b[|b| - 1];
      FilterMapAppend(a, b', keep, f);
    } else {
      assert a + b == a;
    }
  }

  // ---------------------------------------------------------------------------
  // Track list of a folder
  // ---------------------------------------------------------------------------

  /** `href.endsWith('.mp3')`. */
  predicate IsTrackLink(href: string)
  {
    EndsWith(href, ".mp3")
  }

  /** The separator `/{folder}/` that `getSongs` splits on. */
  function FolderSeparator(folder: string): (sep: string)
    ensures |sep| == |folder| + 2
  {
    "/" + folder + "/"
  }

  /** `t` up to the first occurrence of `sep`, or all of `t`. */
  function UpToFirst(t: string, sep: string): string
  {
    match Find(t, sep)
    case None => t
    case Some(j) => t[..j]
  }

  /** The text after the first occurrence of `sep` in `s` and before the next one. */
  function AfterFirst(s: string, sep: string): Option<string>
  {
    match Find(s, sep)
    case None => None
    case Some(i) => Some(UpToFirst(s[i + |sep|..], sep))
  }

  /** The first piece of a split is the text before the first separator. */
  lemma SplitHead(t: string, sep: string)
    requires |sep| > 0
    ensures Split(t, sep)[0] == UpToFirst(t, sep)
  {
  }

  /**
   * `href.split("/" + folder + "/")[1]`: the second piece of the split, or
   * `None` (JavaScript's `undefined`) when the separator does not occur. It is
   * the text between the first `/{folder}/` and the next one.
   */
  function TrackName(href: string, folder: string): (r: Option<string>)
    ensures r == AfterFirst(href, FolderSeparator(folder))
  {
    var sep := FolderSeparator(folder);
    var parts := Split(href, sep);
    match Find(href, sep)
    case None => None
    case Some(i) =>
      SplitHead(href[i + |sep|..], sep);
      Some(parts[1])
  }

  /**
   * A track name exists exactly when the href contains `/{folder}/`; it is then
   * a prefix of what follows the first occurrence, no occurrence of the separator
   * starts inside it, and it is either all of that text or followed by the next
   * occurrence.
   */
  lemma TrackNameShape(href: string, folder: string)
    ensures var sep := FolderSeparator(folder);
      TrackName(href, folder).Some? <==> Includes(href, sep)
    ensures var sep := FolderSeparator(folder);
      TrackName(href, folder).Some? ==>
        var i := Find(href, sep).value;
        var t := href[i + |sep|..];
        var x := TrackName(href, folder).value;
        FirstOccurrence(href, sep, i) && x <= t &&
        (forall j :: 0 <= j < |x| ==> !OccursAt(t, sep, j)) &&
        (x == t || OccursAt(t, sep, |x|))
  {
    var sep := FolderSeparator(folder);
    match Find(href, sep)
    case None =>
    case Some(i) =>
      var t := href[i + |sep|..];
      match Find(t, sep)
      case None =>
      case Some(j) =>
        assert TrackName(href, folder).value == t[..j];
  }

  /**
   * The songs of a folder listing, the `filter`/`map` of `getSongs`: one entry
   * per ".mp3" href and nothing else, in the order of the hrefs; entry `k` is the
   * track name of the `k`-th ".mp3" href.
   */
  function TrackList(hrefs: seq<string>, folder: string): (songs: seq<Option<string>>)
    ensures var pos := Positions(hrefs, IsTrackLink);
      |songs| == |pos| && |songs| <= |hrefs| &&
      forall k :: 0 <= k < |songs| ==> songs[k] == TrackName(hrefs[pos[k]], folder)
  {
    FilterMap(hrefs, IsTrackLink, href => TrackName(href, folder))
  }

  /** Listing two documents one after the other lists their tracks one after the other. */
  lemma TrackListAppend(a: seq<string>, b: seq<string>, folder: string)
    ensures TrackList(a + b, folder) == TrackList(a, folder) + TrackList(b, folder)
  {
    FilterMapAppend(a, b, IsTrackLink, href => TrackName(href, folder));
  }

  // ---------------------------------------------------------------------------
  // Album folders of the root listing
  // ---------------------------------------------------------------------------

  /** A link of the root listing: its `href` and the `pathname` of its URL. */
  datatype Link = Link(href: string, pathname: string)

  /** `href.includes('/songs/') && !href.includes('.htaccess')`. */
  function IsAlbumLink(link: Link): (b: bool)
    ensures b <==> (exists j :: OccursAt(link.href, "/songs/", j)) &&
                   !(exists j :: OccursAt(link.href, ".htaccess", j))
  {
    Includes(link.href, "/songs/") && !Includes(link.href, ".htaccess")
  }

  /** A piece that `Boolean` keeps: a non-empty string. */
  predicate NonEmpty(piece: string)
  {
    piece != ""
  }

  /**
   * `parts.filter(Boolean)`: the non-empty pieces, in order and with repeats;
   * entry `k` is the `k`-th non-empty piece.
   */
  function NonEmptyPieces(parts: seq<string>): (r: seq<string>)
    ensures var pos := Positions(parts, NonEmpty);
      |r| == |pos| && |r| <= |parts| &&
      forall k :: 0 <= k < |r| ==> r[k] == parts[pos[k]]
  {
    FilterMap(parts, NonEmpty, piece => piece)
  }

  /**
   * `pathname.split('/').filter(Boolean).pop()`: the last non-empty `/`-segment,
   * or `None` (`undefined`) when every segment is empty.
   */
  function FolderName(pathname: string): (r: Option<string>)
    ensures var parts := Split(pathname, "/");
      var pos := Positions(parts, NonEmpty);
      r == if |pos| == 0 then None else Some(parts[pos[|pos| - 1]])
  {
    var segs := NonEmptyPieces(Split(pathname, "/"));
    if |segs| == 0 then None else Some(segs[|segs| - 1])
  }

  /** `p` without its trailing slashes. */
  function TrimSlashes(p: string): (q: string)
    ensures q <= p && (q == "" || q[|q| - 1] != '/')
    ensures forall j :: |q| <= j < |p| ==> p[j] == '/'
    decreases |p|
  {
    if |p| > 0 && p[|p| - 1] == '/' then TrimSlashes(p[..|p| - 1]) else p
  }

  /** Trailing slashes add only empty segments, which the filter drops. */
  lemma {:induction false} FolderNameTrim(p: string)
    ensures FolderName(p) == FolderName(TrimSlashes(p))
    decreases |p|
  {
    if |p| > 0 && p[|p| - 1] == '/' {
      var q := p[..|p| - 1];
      assert p == q + ['/'];
      SplitTrailingChar(q, '/');
      NonEmptyPiecesDropEmpty(Split(q, "/"));
      FolderNameTrim(q);
    }
  }

  /** An empty piece at the end is dropped by the filter. */
  lemma NonEmptyPiecesDropEmpty(parts: seq<string>)
    ensures NonEmptyPieces(parts + [""]) == NonEmptyPieces(parts)
  {
    assert (parts + [""])[..|parts|] == parts;
  }

  /** A non-empty last piece survives the filter as its last element. */
  lemma NonEmptyLast(parts: seq<string>)
    requires |parts| > 0 && parts[|parts| - 1] != ""
    ensures var segs := NonEmptyPieces(parts);
      |segs| > 0 && segs[|segs| - 1] == parts[|parts| - 1]
  {
  }

  /** The last piece of a path that does not end in '/' is not empty. */
  lemma LastPieceNonEmpty(q: string)
    requires q != "" && q[|q| - 1] != '/'
    ensures LastPiece(q, '/') != ""
  {
  }

  /** A path that does not end in '/' is named by its last segment. */
  lemma FolderNameOfTrimmed(q: string)
    requires q != "" && q[|q| - 1] != '/'
    ensures FolderName(q) == Some(LastPiece(q, '/'))
  {
    var parts := Split(q, "/");
    LastPieceNonEmpty(q);
    assert LastPiece(q, '/') == parts[|parts| - 1];
    NonEmptyLast(parts);
  }

  /** The empty path has no folder name. */
  lemma FolderNameOfEmpty()
    ensures FolderName("") == None
  {
    SplitWithoutChar("", '/');
    assert NonEmptyPieces([""]) == [];
  }

  /**
   * The folder name is the last `/`-segment once trailing slashes are removed,
   * and there is none when the path holds nothing but slashes.
   */
  lemma FolderNameIsLastSegment(p: string)
    ensures var q := TrimSlashes(p);
      FolderName(p) == if q == "" then None else Some(LastPiece(q, '/'))
  {
    var q := TrimSlashes(p);
    FolderNameTrim(p);
    if q == "" {
      FolderNameOfEmpty();
    } else {
      FolderNameOfTrimmed(q);
    }
  }

  /**
   * A folder name is a non-empty segment without '/', found at the end of the
   * path before its trailing slashes; there is none exactly when the path is
   * nothing but slashes.
   */
  lemma FolderNameShape(p: string)
    ensures FolderName(p).None? <==> forall j :: 0 <= j < |p| ==> p[j] == '/'
    ensures FolderName(p).Some? ==>
      var x := FolderName(p).value;
      x != "" && '/' !in x && EndsWith(TrimSlashes(p), x)
  {
    FolderNameIsLastSegment(p);
    var q := TrimSlashes(p);
    if q != "" {
      LastPieceNonEmpty(q);
      assert p[|q| - 1] != '/';
    }
  }

  /**
   * The folders of the album links of the root listing: one per album link and
   * nothing else, in the order of the links; entry `k` is the folder name of the
   * `k`-th album link.
   */
  function AlbumFolders(links: seq<Link>): (folders: seq<Option<string>>)
    ensures var pos := Positions(links, IsAlbumLink);
      |folders| == |pos| && |folders| <= |links| &&
      forall k :: 0 <= k < |folders| ==> folders[k] == FolderName(links[pos[k]].pathname)
  {
    FilterMap(links, IsAlbumLink, (link: Link) => FolderName(link.pathname))
  }
}
