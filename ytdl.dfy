/**
 * Track metadata and the data-shaping around the yt_dlp extractors
 * (src/cogs/music/ytdl.py). The extractor calls themselves are outside the
 * model: each operation receives the info dict the extractor returned as a
 * parameter, and the model says what the bot makes of it.
 */
module Ytdl {
  import opened Wrappers
  import opened Strings

  /** The member who asked for a track (`ctx.author`), as an opaque id. */
  type User = nat

  /** The exceptions the extractors raise or run into. */
  datatype Error =
    | YTDLError(message: string)
    | TypeError           // subscripting None, or int(None)
    | AttributeError      // calling .get or .pop on None
    | KeyError(key: string)
    | IndexError
    | NameError(name: string)

  /**
   * A key of the info dict that the code subscripts or tests with `in`: absent,
   * or present with a value that may itself be None.
   */
  datatype Field<T> = Absent | Present(held: Option<T>)
  {
    /** `data.get(key)`: None both for an absent key and for a key holding None. */
    function Get(): Option<T>
    {
      if Present? then held else None
    }
  }

  /**
   * The info dict yt_dlp returns. A key the code only reads with `data.get`
   * is Some when that gives a value and None otherwise; `title`, `url` and
   * `entries` are also subscripted or tested with `in`, so for them an absent
   * key and a key holding None differ. `entries` is present for playlists and
   * search results, and its items may themselves be None.
   */
  datatype Info = Info(
    uploader: Option<string>,
    uploaderUrl: Option<string>,
    uploadDate: Option<string>,
    title: Field<string>,
    thumbnail: Option<string>,
    duration: Option<real>,
    webpageUrl: Option<string>,
    url: Field<string>,
    entries: Field<seq<Option<Info>>>)

  /** Full metadata of one resolved video (`YTDLMetadata`). */
  datatype YTDLMetadata = YTDLMetadata(
    requester: User,
    uploader: Option<string>,
    uploaderUrl: Option<string>,
    date: string,
    title: Option<string>,
    thumbnail: Option<string>,
    duration: string,
    url: Option<string>)

  /** Url and title of one playlist item (`BasicMetadata`); either may be None when the entry holds None. */
  datatype BasicMetadata = BasicMetadata(requester: User, url: Option<string>, title: Option<string>)

  /** What the flat extractor hands back: one video, or one item per playlist entry. */
  datatype Fetched = Single(meta: YTDLMetadata) | Playlist(items: seq<BasicMetadata>)

  // ---------------------------------------------------------------------------
  // Upload date: YYYYMMDD becomes DD.MM.YYYY
  // ---------------------------------------------------------------------------

  /** Undoes the reordering of an 8-character date (used to state the round trip). */
  function RestoreDate(r: string): string
    requires |r| == 10
  {
    r[6..10] + r[3..5] + r[0..2]
  }

  /** `date[6:8] + '.' + date[4:6] + '.' + date[0:4]`, with Python's clamping slices. */
  function ReformatDate(date: string): (r: string)
    ensures |r| == Min(|date|, 8) + 2
    ensures |date| == 8 ==>
      && r[0..2] == date[6..8] && r[2] == '.'
      && r[3..5] == date[4..6] && r[5] == '.'
      && r[6..10] == date[0..4]
      && RestoreDate(r) == date
  {
    Slice(date, 6, 8) + "." + Slice(date, 4, 6) + "." + Slice(date, 0, 4)
  }

  // ---------------------------------------------------------------------------
  // parse_duration
  // ---------------------------------------------------------------------------

  /** A duration split into days, hours, minutes and seconds. */
  datatype Span = Span(days: int, hours: int, minutes: int, seconds: int)

  /**
   * The three `divmod`s of parse_duration. Python's `divmod` by a positive
   * divisor floors, which is what Dafny's `/` and `%` do for a positive divisor.
   */
  function SplitDuration(duration: int): (s: Span)
    ensures 0 <= s.hours < 24 && 0 <= s.minutes < 60 && 0 <= s.seconds < 60
    ensures s.days * 86400 + s.hours * 3600 + s.minutes * 60 + s.seconds == duration
    ensures duration >= 0 ==> s.days >= 0
  {
    var minutes, seconds := duration / 60, duration % 60;
    var hours, minutes' := minutes / 60, minutes % 60;
    var days, hours' := hours / 24, hours % 24;
    assert minutes * 60 + seconds == duration;
    assert hours * 60 + minutes' == minutes;
    assert days * 24 + hours' == hours;
    Span(days, hours', minutes', seconds)
  }

  /** The split is the only one with hours < 24, minutes < 60 and seconds < 60. */
  lemma SplitDurationUnique(duration: int, s: Span)
    requires 0 <= s.hours < 24 && 0 <= s.minutes < 60 && 0 <= s.seconds < 60
    requires s.days * 86400 + s.hours * 3600 + s.minutes * 60 + s.seconds == duration
    ensures s == SplitDuration(duration)
  {
    var t := SplitDuration(duration);
    var m := s.days * 1440 + s.hours * 60 + s.minutes;
    var m' := t.days * 1440 + t.hours * 60 + t.minutes;
    assert m * 60 + s.seconds == m' * 60 + t.seconds;
    DivModUnique(duration, 60, m, s.seconds, m', t.seconds);
    var h := s.days * 24 + s.hours;
    var h' := t.days * 24 + t.hours;
    assert h * 60 + s.minutes == h' * 60 + t.minutes;
    DivModUnique(m, 60, h, s.minutes, h', t.minutes);
    DivModUnique(h, 24, s.days, s.hours, t.days, t.hours);
  }

  lemma DivModUnique(n: int, d: int, q: int, r: int, q': int, r': int)
    requires d > 0 && 0 <= r < d && 0 <= r' < d
    requires q * d + r == n && q' * d + r' == n
    ensures q == q' && r == r'
  {
    var k := q - q';
    assert k * d == r' - r;
  }

  /** `"{n} unit"` (the unit carries its leading space) for every component whose amount is positive, in the given order. */
  function PositiveParts(cs: seq<(int, string)>): (r: seq<string>)
    ensures |r| <= |cs|
    ensures forall i :: 0 <= i < |r| ==> r[i] != ""
  {
    if cs == [] then [] else Part(cs[0]) + PositiveParts(cs[1..])
  }

  /** `["{n} unit"]` (the unit carries its leading space) for a positive amount, nothing otherwise. */
  function Part(c: (int, string)): (r: seq<string>)
    ensures |r| <= 1 && forall i :: 0 <= i < |r| ==> r[i] != ""
  {
    if c.0 > 0 then [IntToString(c.0) + c.1] else []
  }

  lemma PositivePartsOfFour(cs: seq<(int, string)>)
    requires |cs| == 4
    ensures PositiveParts(cs) == Part(cs[0]) + Part(cs[1]) + Part(cs[2]) + Part(cs[3])
  {
    assert cs[3..][1..] == [];
    assert PositiveParts(cs[3..]) == Part(cs[3]) + PositiveParts([]);
    assert cs[2..][1..] == cs[3..];
    assert PositiveParts(cs[2..]) == Part(cs[2]) + PositiveParts(cs[3..]);
    assert cs[1..][1..] == cs[2..];
    assert PositiveParts(cs[1..]) == Part(cs[1]) + PositiveParts(cs[2..]);
  }

  /** No text is emitted exactly when no amount is positive. */
  lemma {:induction false} PositivePartsEmptyIff(cs: seq<(int, string)>)
    ensures PositiveParts(cs) == [] <==> forall i :: 0 <= i < |cs| ==> cs[i].0 <= 0
  {
    if cs != [] {
      assert PositiveParts(cs) == Part(cs[0]) + PositiveParts(cs[1..]);
      PositivePartsEmptyIff(cs[1..]);
      assert forall i :: 1 <= i < |cs| ==> cs[i] == cs[1..][i - 1];
    }
  }

  /** The components of a split, in days/hours/minutes/seconds order. */
  function Components(s: Span): seq<(int, string)>
  {
    [(s.days, " days"), (s.hours, " hours"), (s.minutes, " minutes"), (s.seconds, " seconds")]
  }

  /** The text parse_duration returns: the non-zero components joined by ", ". */
  function DurationText(duration: int): string
  {
    Join(", ", PositiveParts(Components(SplitDuration(duration))))
  }

  /** parse_duration, appending each non-zero component to a list and joining it. */
  method ParseDuration(duration: int) returns (text: string)
    ensures text == DurationText(duration)
  {
    var minutes, seconds := duration / 60, duration % 60;
    var hours := minutes / 60;
    minutes := minutes % 60;
    var days := hours / 24;
    hours := hours % 24;

    assert SplitDuration(duration) == Span(days, hours, minutes, seconds);
    ghost var cs := Components(Span(days, hours, minutes, seconds));

    var parts: seq<string> := [];
    if days > 0 {
      parts := parts + [IntToString(days) + " days"];
    }
    assert parts == Part(cs[0]);
    ghost var done := parts;
    if hours > 0 {
      parts := parts + [IntToString(hours) + " hours"];
    }
    assert parts == done + Part(cs[1]);
    done := parts;
    if minutes > 0 {
      parts := parts + [IntToString(minutes) + " minutes"];
    }
    assert parts == done + Part(cs[2]);
    done := parts;
    if seconds > 0 {
      parts := parts + [IntToString(seconds) + " seconds"];
    }
    assert parts == done + Part(cs[3]);
    PositivePartsOfFour(cs);
    text := Join(", ", parts);
  }

  /** A non-negative duration renders as the empty string exactly when it is 0. */
  lemma DurationTextEmptyIff(duration: int)
    requires duration >= 0
    ensures DurationText(duration) == "" <==> duration == 0
  {
    var s := SplitDuration(duration);
    var parts := PositiveParts(Components(s));
    JoinEmptyIff(", ", parts);
    PositivePartsEmptyIff(Components(s));
    if duration != 0 {
      var cs := Components(s);
      assert cs[0].0 > 0 || cs[1].0 > 0 || cs[2].0 > 0 || cs[3].0 > 0;
    }
  }

  lemma {:induction false} PositivePartsNoComma(cs: seq<(int, string)>)
    requires forall i, k :: 0 <= i < |cs| && 0 <= k < |cs[i].1| ==> cs[i].1[k] != ','
    ensures Splittable(", ", PositiveParts(cs))
  {
    if cs != [] {
      PositivePartsNoComma(cs[1..]);
      if cs[0].0 > 0 {
        var p := IntToString(cs[0].0) + cs[0].1;
        assert forall k :: 0 <= k < |p| ==> p[k] != ',' by {
          forall k | 0 <= k < |p| ensures p[k] != ',' {
            var n := IntToString(cs[0].0);
            if k < |n| {
              assert p[k] == n[k];
            } else {
              assert p[k] == cs[0].1[k - |n|];
            }
          }
        }
      }
    }
  }

  /** Splitting the rendered text on ", " gives back exactly the non-zero components, in order. */
  lemma DurationTextSplits(duration: int)
    requires DurationText(duration) != ""
    ensures Split(DurationText(duration), ", ") == PositiveParts(Components(SplitDuration(duration)))
  {
    var cs := Components(SplitDuration(duration));
    PositivePartsNoComma(cs);
    assert PositiveParts(cs) != [];
    SplitJoin(", ", PositiveParts(cs));
  }

  // ---------------------------------------------------------------------------
  // YTDLMetadata.__init__
  // ---------------------------------------------------------------------------

  /** Python's `int(x)` for a float: truncation toward zero. */
  function Truncate(x: real): (n: int)
    ensures x >= 0.0 ==> n as real <= x < n as real + 1.0
    ensures x < 0.0 ==> n as real - 1.0 < x <= n as real
  {
    if x >= 0.0 then x.Floor else -((-x).Floor)
  }

  /**
   * Builds the full metadata of a video from its info dict. A missing
   * `upload_date` or `duration` makes `__init__` fail with a TypeError.
   */
  function MetadataFromInfo(requester: User, data: Info): (r: Result<YTDLMetadata, Error>)
    ensures r.Success? <==> data.uploadDate.Some? && data.duration.Some?
    ensures r.Failure? ==> r.error == TypeError
    ensures r.Success? ==>
      && r.value.requester == requester
      && r.value.date == ReformatDate(data.uploadDate.value)
      && r.value.duration == DurationText(Truncate(data.duration.value))
      && r.value.title == data.title.Get() && r.value.url == data.webpageUrl
      && r.value.uploader == data.uploader && r.value.uploaderUrl == data.uploaderUrl
      && r.value.thumbnail == data.thumbnail
  {
    match data.uploadDate
    case None => Failure(TypeError)
    case Some(date) =>
      match data.duration
      case None => Failure(TypeError)
      case Some(d) =>
        Success(YTDLMetadata(requester, data.uploader, data.uploaderUrl, ReformatDate(date),
                             data.title.Get(), data.thumbnail, DurationText(Truncate(d)), data.webpageUrl))
  }

  // ---------------------------------------------------------------------------
  // YTDLExtractorFlat.fetch_metadata
  // ---------------------------------------------------------------------------

  /** Whether the link carries both a video and a playlist parameter. */
  predicate IsWatchPlaylistLink(link: string)
  {
    Contains(link, "watch") && Contains(link, "&list")
  }

  lemma NoOccurrenceBeforeFirst(link: string, sub: string)
    requires sub != "" && Find(link, sub) >= 0
    ensures !Contains(link[..Find(link, sub)], sub)
  {
    var i := Find(link, sub);
    if Contains(link[..i], sub) {
      var j: nat :| j <= i && OccursAt(link[..i], sub, j);
      OccursInPrefix(link, i, sub, j);
      assert false;
    }
  }

  /**
   * The link actually handed to the extractor: a watch link that also names a
   * playlist is cut before its first `&list`, so only the video is fetched.
   */
  function TruncateLink(link: string): (r: string)
    ensures |r| <= |link| && r == link[..|r|]
    ensures IsWatchPlaylistLink(link) ==> !Contains(r, "&list") && OccursAt(link, "&list", |r|)
    ensures !IsWatchPlaylistLink(link) ==> r == link
  {
    if IsWatchPlaylistLink(link) then
      NoOccurrenceBeforeFirst(link, "&list");
      link[..Find(link, "&list")]
    else link
  }

  /** Truncating twice is truncating once. */
  lemma TruncateLinkIdempotent(link: string)
    ensures TruncateLink(TruncateLink(link)) == TruncateLink(link)
  {
  }

  /**
   * `BasicMetadata(ctx, url = entry['url'], title = entry['title'])` for one
   * playlist entry: subscripting a None entry is a TypeError, a missing key a
   * KeyError (`url` is looked up first), and a key holding None passes None on.
   */
  function BasicOf(requester: User, entry: Option<Info>): (r: Result<BasicMetadata, Error>)
    ensures entry.None? ==> r == Failure(TypeError)
    ensures entry.Some? && entry.value.url.Absent? ==> r == Failure(KeyError("url"))
    ensures entry.Some? && entry.value.url.Present? && entry.value.title.Absent? ==> r == Failure(KeyError("title"))
    ensures r.Success? <==> entry.Some? && entry.value.url.Present? && entry.value.title.Present?
    ensures r.Success? ==>
      r.value == BasicMetadata(requester, entry.value.url.held, entry.value.title.held)
  {
    match entry
    case None => Failure(TypeError)
    case Some(e) =>
      match e.url
      case Absent => Failure(KeyError("url"))
      case Present(url) =>
        match e.title
        case Absent => Failure(KeyError("title"))
        case Present(title) => Success(BasicMetadata(requester, url, title))
  }

  /**
   * The playlist items built from the entries: one per entry, in order, or the
   * error of the first entry that cannot be converted.
   */
  function BasicEntries(requester: User, entries: seq<Option<Info>>): (r: Result<seq<BasicMetadata>, Error>)
    ensures r.Success? <==> forall k :: 0 <= k < |entries| ==> BasicOf(requester, entries[k]).Success?
    ensures r.Success? ==>
      && |r.value| == |entries|
      && forall k :: 0 <= k < |entries| ==> r.value[k] == BasicOf(requester, entries[k]).value
    ensures r.Failure? ==>
      exists k :: 0 <= k < |entries| && BasicOf(requester, entries[k]) == Failure(r.error)
                  && forall j :: 0 <= j < k ==> BasicOf(requester, entries[j]).Success?
  {
    if entries == [] then Success([])
    else
      var init := entries[..|entries| - 1];
      assert forall k :: 0 <= k < |init| ==> init[k] == entries[k];
      match BasicEntries(requester, init)
      case Failure(e) => Failure(e)
      case Success(items) =>
        match BasicOf(requester, entries[|entries| - 1])
        case Failure(e) => Failure(e)
        case Success(b) => Success(items + [b])
  }

  /** The message of the YTDLError raised when the flat extractor finds nothing. */
  function NotFoundMessage(link: string): string
  {
    "Couldn't find anything that matches " + link
  }

  /**
   * YTDLExtractorFlat.fetch_metadata: `data` is what the extractor returned for
   * `TruncateLink(link)`.
   */
  method FetchMetadataFlat(requester: User, link: string, data: Option<Info>) returns (r: Result<Fetched, Error>)
    ensures data.None? ==> r == Failure(YTDLError(NotFoundMessage(TruncateLink(link))))
    ensures data.Some? && data.value.entries.Absent? ==>
      r == match MetadataFromInfo(requester, data.value)
           case Success(m) => Success(Single(m))
           case Failure(e) => Failure(e)
    ensures data.Some? && data.value.entries == Present(None) ==> r == Failure(TypeError)
    ensures data.Some? && data.value.entries.Present? && data.value.entries.held.Some? ==>
      r == match BasicEntries(requester, data.value.entries.held.value)
           case Success(items) => Success(Playlist(items))
           case Failure(e) => Failure(e)
  {
    var query := TruncateLink(link);
    if data.None? {
      return Failure(YTDLError(NotFoundMessage(query)));
    }
    var info := data.value;
    if info.entries.Absent? {
      var m := MetadataFromInfo(requester, info);
      match m {
        case Success(meta) => return Success(Single(meta));
        case Failure(e) => return Failure(e);
      }
    }
    if info.entries.held.None? {
      return Failure(TypeError);
    }
    var entries := info.entries.held.value;
    var urlList: seq<BasicMetadata> := [];
    var i := 0;
    while i < |entries|
      invariant 0 <= i <= |entries|
      invariant |urlList| == i
      invariant forall k :: 0 <= k < i ==> BasicOf(requester, entries[k]) == Success(urlList[k])
    {
      var b := BasicOf(requester, entries[i]);
      if b.Failure? {
        return Failure(b.error);
      }
      urlList := urlList + [b.value];
      i := i + 1;
    }
    assert BasicEntries(requester, entries).Success?;
    assert BasicEntries(requester, entries).value == urlList;
    return Success(Playlist(urlList));
  }

  // ---------------------------------------------------------------------------
  // YTDLExtractorNonFlat.fetch_metadata
  // ---------------------------------------------------------------------------

  const ExtractorKeyErrorMessage := "Extractor Results Key Error: There were errors in processing the search results"

  /**
   * YTDLExtractorNonFlat.fetch_metadata: `data` is what the extractor returned
   * for the search string. When it is None, the message refers to a name the
   * function never defines, so the raise itself fails with a NameError.
   * `data['entries'][0]` is a TypeError when `entries` holds None and an
   * IndexError when it is empty; a None first entry makes `__init__` call
   * `.get` on None, an AttributeError.
   */
  function FetchMetadataNonFlat(requester: User, data: Option<Info>): (r: Result<YTDLMetadata, Error>)
    ensures data.None? ==> r == Failure(NameError("link"))
    ensures data.Some? && data.value.entries.Absent? ==> r == Failure(YTDLError(ExtractorKeyErrorMessage))
    ensures data.Some? && data.value.entries == Present(None) ==> r == Failure(TypeError)
    ensures data.Some? && data.value.entries == Present(Some([])) ==> r == Failure(IndexError)
    ensures data.Some? && data.value.entries.Present? && data.value.entries.held.Some?
            && data.value.entries.held.value != [] ==>
      var first := data.value.entries.held.value[0];
      && (first.None? ==> r == Failure(AttributeError))
      && (first.Some? ==> r == MetadataFromInfo(requester, first.value))
    ensures r.Success? ==>
      && data.Some? && data.value.entries.Present? && data.value.entries.held.Some?
      && data.value.entries.held.value != [] && data.value.entries.held.value[0].Some?
  {
    match data
    case None => Failure(NameError("link"))
    case Some(info) =>
      match info.entries
      case Absent => Failure(YTDLError(ExtractorKeyErrorMessage))
      case Present(None) => Failure(TypeError)
      case Present(Some(entries)) =>
        if entries == [] then Failure(IndexError)
        else match entries[0]
          case None => Failure(AttributeError)
          case Some(first) => MetadataFromInfo(requester, first)
  }

  // ---------------------------------------------------------------------------
  // YTDLSource.create_source: which info dict the audio source is probed from
  // ---------------------------------------------------------------------------

  /** The first entry that is not None. */
  function FirstPresent(entries: seq<Option<Info>>): (r: Option<Info>)
    ensures r.Some? <==> exists k :: 0 <= k < |entries| && entries[k].Some?
    ensures r.Some? ==>
      exists k :: 0 <= k < |entries| && entries[k] == r && forall j :: 0 <= j < k ==> entries[j].None?
  {
    if entries == [] then None
    else if entries[0].Some? then entries[0]
    else
      var r := FirstPresent(entries[1..]);
      assert forall k :: 1 <= k < |entries| ==> entries[k] == entries[1..][k - 1];
      r
  }

  /**
   * The entry selection of create_source: `processed` is what the extractor
   * returned for `link`; a playlist result is popped from the front until an
   * entry that is not None turns up.
   */
  method SelectEntry(link: string, processed: Option<Info>) returns (r: Result<Info, Error>)
    ensures processed.None? ==> r == Failure(YTDLError("Couldn't fetch " + link))
    ensures processed.Some? && processed.value.entries.Absent? ==> r == Success(processed.value)
    ensures processed.Some? && processed.value.entries == Present(None) ==> r == Failure(AttributeError)
    ensures processed.Some? && processed.value.entries.Present? && processed.value.entries.held.Some? ==>
      r == match FirstPresent(processed.value.entries.held.value)
           case Some(info) => Success(info)
           case None => Failure(YTDLError("Couldn't retrieve any matches for " + link))
  {
    if processed.None? {
      return Failure(YTDLError("Couldn't fetch " + link));
    }
    if processed.value.entries.Absent? {
      return Success(processed.value);
    }
    if processed.value.entries.held.None? {
      return Failure(AttributeError);
    }
    var entries := processed.value.entries.held.value;
    var rest := entries;
    var info: Option<Info> := None;
    while info.None?
      invariant info.None? ==> FirstPresent(rest) == FirstPresent(entries)
      invariant info.Some? ==> info == FirstPresent(entries)
      decreases |rest|
    {
      if rest == [] {
        return Failure(YTDLError("Couldn't retrieve any matches for " + link));
      }
      info := rest[0];
      rest := rest[1..];
    }
    return Success(info.value);
  }
}
