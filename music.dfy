/**
 * The command layer of the music cog (src/cogs/music/music.py): the registry
 * of per-guild voice states, the paged queue listing, and the guards and index
 * conversions the commands put in front of the player.
 */
module Music {
  import opened Wrappers
  import opened Strings
  import Ytdl
  import Player

  type GuildId = nat

  // ---------------------------------------------------------------------------
  // The voice-state registry
  // ---------------------------------------------------------------------------

  datatype DisconnectReply = Disconnected | NotConnected

  /** The cog; `voiceStates` is the dict from guild id to that guild's player. */
  class MusicCog {
    var voiceStates: map<GuildId, Player.VoiceState>

    /** Each guild has a player of its own: no two guild ids share a player or a queue. */
    predicate Valid()
      reads this, voiceStates.Values
    {
      forall g, h :: g in voiceStates && h in voiceStates && g != h ==>
        voiceStates[g] != voiceStates[h] && voiceStates[g].songs != voiceStates[h].songs
    }

    constructor ()
      ensures voiceStates == map[] && Valid()
    {
      voiceStates := map[];
    }

    /**
     * `get_voice_state`: the stored state of the guild, or a new idle one that
     * is stored under the guild id before it is returned.
     */
    method GetVoiceState(guild: GuildId) returns (state: Player.VoiceState)
      requires Valid()
      modifies this
      ensures Valid()
      ensures guild in voiceStates && voiceStates[guild] == state
      ensures guild in old(voiceStates) ==> state == old(voiceStates)[guild] && voiceStates == old(voiceStates)
      ensures guild !in old(voiceStates) ==>
        && voiceStates == old(voiceStates)[guild := state]
        && fresh(state) && fresh(state.songs)
        && state.songs.items == [] && state.Settled() && state.current.None? && state.voice.None?
    {
      if guild in voiceStates {
        state := voiceStates[guild];
      } else {
        state := new Player.VoiceState();
        voiceStates := voiceStates[guild := state];
      }
    }

    /**
     * `_disconnect`, preceded by `cog_before_invoke`'s lookup: without a voice
     * connection nothing is stopped and the entry stays; with one, the player is
     * stopped and the guild's entry is deleted.
     */
    method Disconnect(guild: GuildId) returns (reply: DisconnectReply)
      modifies this
      modifies if guild in voiceStates then {voiceStates[guild]} else {}
      modifies if guild in voiceStates then {voiceStates[guild].songs} else {}
      requires Valid()
      ensures Valid()
      ensures forall g :: g in old(voiceStates) && g != guild ==>
        && g in voiceStates && voiceStates[g] == old(voiceStates)[g]
        && unchanged(old(voiceStates)[g], old(voiceStates)[g].songs)
      ensures reply == Disconnected <==> guild in old(voiceStates) && old(voiceStates[guild].voice).Some?
      ensures reply == Disconnected ==>
        var s := old(voiceStates)[guild];
        && voiceStates == old(voiceStates) - {guild}
        && s.songs.items == [] && s.voice.None? && s.current.None?
        && s.queuebuffer == old(s.queuebuffer) && s.bufferflag == old(s.bufferflag)
      ensures reply == NotConnected && guild in old(voiceStates) ==>
        && voiceStates == old(voiceStates)
        && unchanged(voiceStates[guild], voiceStates[guild].songs)
      ensures reply == NotConnected && guild !in old(voiceStates) ==>
        guild in voiceStates &&
        var s := voiceStates[guild];
        && voiceStates == old(voiceStates)[guild := s]
        && fresh(s) && fresh(s.songs)
        && s.songs.items == [] && s.Settled() && s.current.None? && s.voice.None?
    {
      var state := GetVoiceState(guild);
      if state.voice.None? {
        return NotConnected;
      }
      state.Stop();
      voiceStates := voiceStates - {guild};
      reply := Disconnected;
    }
  }

  // ---------------------------------------------------------------------------
  // Paging the queue
  // ---------------------------------------------------------------------------

  const ItemsPerPage: nat := 10

  /** `math.ceil(n / items_per_page)`. */
  function PageCount(n: nat): (pages: nat)
    ensures n == 0 <==> pages == 0
    ensures n > 0 ==> (pages - 1) * ItemsPerPage < n <= pages * ItemsPerPage
  {
    (n + ItemsPerPage - 1) / ItemsPerPage
  }

  /** The 0-based index of the first song on page `page` (pages count from 1). */
  function PageStart(page: int): int
  {
    (page - 1) * ItemsPerPage
  }

  /** The page an index is listed on: one of the pages there are, and its window holds the index. */
  lemma {:induction false} PageOf(n: nat, i: nat)
    requires i < n
    ensures var p := i / ItemsPerPage + 1;
      1 <= p <= PageCount(n) && PageStart(p) <= i < PageStart(p) + ItemsPerPage
  {
  }

  /** Page windows do not overlap: an index is in the window of exactly one page. */
  lemma {:induction false} PageUnique(p: int, i: nat)
    requires PageStart(p) <= i < PageStart(p) + ItemsPerPage
    ensures p == i / ItemsPerPage + 1
  {
    var q := p - 1;
    assert q * ItemsPerPage <= i < q * ItemsPerPage + ItemsPerPage;
    assert i == q * ItemsPerPage + (i - q * ItemsPerPage);
    Ytdl.DivModUnique(i, ItemsPerPage, q, i - q * ItemsPerPage, i / ItemsPerPage, i % ItemsPerPage);
  }

  /** What `{song.title}` prints for either kind of song. */
  function TitleOf(song: Player.Song): string
  {
    match song
    case Full(meta) => Show(meta.title)
    case Basic(item) => Show(item.title)
  }

  /** What `{song.url}` prints for either kind of song. */
  function UrlOf(song: Player.Song): string
  {
    match song
    case Full(meta) => Show(meta.url)
    case Basic(item) => Show(item.url)
  }

  /** One line of the listing: the 1-based label, then the song as a markdown link. */
  function Line(position: int, song: Player.Song): string
  {
    "`" + IntToString(position) + ".` [**" + TitleOf(song) + "**](" + UrlOf(song) + ")\n"
  }

  /** The listing of `window`, whose first song sits at 0-based index `start` of the queue. */
  function ListingLines(start: int, window: seq<Player.Song>): (lines: seq<string>)
    ensures |lines| == |window|
    ensures forall k :: 0 <= k < |window| ==> lines[k] == Line(start + k + 1, window[k])
  {
    seq(|window|, k requires 0 <= k < |window| => Line(start + k + 1, window[k]))
  }

  /** Appending one song to a window appends its line to the listing. */
  lemma ListingStep(start: int, window: seq<Player.Song>, i: nat)
    requires i < |window|
    ensures Concat(ListingLines(start, window[..i + 1]))
         == Concat(ListingLines(start, window[..i])) + Line(start + i + 1, window[i])
  {
    var lines := ListingLines(start, window[..i + 1]);
    assert lines[..i] == ListingLines(start, window[..i]);
  }

  /** The songs of a page: those at 0-based index `start` up to ten further, as far as the queue goes. */
  function Window<T>(items: seq<T>, start: nat): (w: seq<T>)
    ensures |w| <= ItemsPerPage
    ensures forall k :: 0 <= k < |w| ==> start + k < |items| && w[k] == items[start + k]
  {
    if start < |items| then items[start..Min(start + ItemsPerPage, |items|)] else []
  }

  /** What islice hands back for a page is that page's window. */
  lemma SliceIsWindow<T>(items: seq<T>, start: nat, w: seq<T>)
    requires var hi := Min(start + ItemsPerPage, |items|);
      |w| == (if start < hi then hi - start else 0)
    requires forall k :: 0 <= k < |w| ==> w[k] == items[start + k]
    ensures w == Window(items, start)
  {
  }

  datatype QueueReply =
    | QueueEmpty
    | Listing(total: nat, page: int, pages: nat, text: string)
    | ListingFailed(error: Player.QueueError)

  /**
   * `_queue`: "Queue Empty." on an empty queue; otherwise the listing of page
   * `page`, whose songs are labelled with their 1-based queue position. A page
   * below 1 gives a negative slice start, which islice refuses.
   */
  method QueueCommand(state: Player.VoiceState, page: int) returns (reply: QueueReply)
    ensures reply == QueueEmpty <==> state.songs.items == []
    ensures reply.ListingFailed? <==> state.songs.items != [] && page < 1
    ensures reply.ListingFailed? ==> reply.error == Player.ValueError
    ensures reply.Listing? ==>
      && page >= 1
      && reply.total == |state.songs.items|
      && reply.page == page
      && reply.pages == PageCount(|state.songs.items|)
      && reply.text == Concat(ListingLines(PageStart(page), Window(state.songs.items, PageStart(page))))
  {
    var n := state.songs.Length();
    if n == 0 {
      return QueueEmpty;
    }
    var pages := PageCount(n);
    var start := PageStart(page);
    var end := start + ItemsPerPage;
    var slice := state.songs.GetSlice(Some(start), Some(end));
    if slice.Failure? {
      return ListingFailed(slice.error);
    }
    var window := slice.value;
    SliceIsWindow(state.songs.items, start, window);
    var queue := "";
    var i := 0;
    while i < |window|
      invariant 0 <= i <= |window|
      invariant queue == Concat(ListingLines(start, window[..i]))
    {
      ListingStep(start, window, i);
      queue := queue + Line(start + i + 1, window[i]);
      i := i + 1;
    }
    assert window[..i] == window;
    reply := Listing(n, page, pages, queue);
  }

  // ---------------------------------------------------------------------------
  // Guarded queue commands
  // ---------------------------------------------------------------------------

  datatype Reply = Done | EmptyQueue | Failed(error: Player.QueueError)

  /** `_clear_queue`: the queue is emptied, whatever was in it. */
  method ClearCommand(state: Player.VoiceState)
    modifies state.songs
    ensures state.songs.items == []
  {
    state.songs.Clear();
  }

  /** `_shuffle`: refuses an empty queue; otherwise permutes it. */
  method ShuffleCommand(state: Player.VoiceState, draws: seq<nat>) returns (reply: Reply)
    requires |draws| + 1 >= |state.songs.items|
    modifies state.songs
    ensures reply == EmptyQueue <==> old(state.songs.items) == []
    ensures reply == EmptyQueue ==> state.songs.items == old(state.songs.items)
    ensures reply != EmptyQueue ==> reply == Done && multiset(state.songs.items) == multiset(old(state.songs.items))
  {
    var n := state.songs.Length();
    if n == 0 {
      return EmptyQueue;
    }
    state.songs.Shuffle(draws);
    reply := Done;
  }

  /**
   * The position `remove(index - 1)` deletes in a queue of `n` songs, as the
   * command is written: the 1-based index is shifted down by one and handed to
   * the deque, which reads a negative result from the end. None: IndexError.
   */
  function DeletedPosition(index: int, n: nat): (r: Option<nat>)
    ensures r.Some? <==> -(n as int) < index <= n
    ensures r.Some? ==> r.value < n
    ensures 1 <= index <= n ==> r == Some((index - 1) as nat)
    ensures -(n as int) < index <= 0 ==> r == Some((index - 1 + n) as nat)
  {
    if Player.InRange(index - 1, n) then Some(Player.Position(index - 1, n)) else None
  }

  /** As written, `remove 0` on a non-empty queue deletes its last song, which is not labelled 0. */
  lemma RemoveZeroDeletesLast(n: nat)
    requires n > 0
    ensures DeletedPosition(0, n) == Some(n - 1)
    ensures DeletedPosition(0, n) != Some(0) || n == 1
  {
  }

  /** `_remove` as written: refuses an empty queue, otherwise `remove(index - 1)`. */
  method RemoveCommand(state: Player.VoiceState, index: int) returns (reply: Reply)
    modifies state.songs
    ensures reply == EmptyQueue <==> old(state.songs.items) == []
    ensures reply == Done <==> old(state.songs.items) != [] && DeletedPosition(index, |old(state.songs.items)|).Some?
    ensures reply == Done ==>
      state.songs.items == Player.RemoveAt(old(state.songs.items), DeletedPosition(index, |old(state.songs.items)|).value)
    ensures reply != Done ==> state.songs.items == old(state.songs.items)
    ensures reply.Failed? ==> reply.error == Player.IndexError
  {
    var n := state.songs.Length();
    if n == 0 {
      return EmptyQueue;
    }
    var r := state.songs.Remove(index - 1);
    if r.Failure? {
      return Failed(r.error);
    }
    reply := Done;
  }

  /** The position a 1-based index names, with only the labels the listing shows accepted. */
  function LabelledPosition(index: int, n: nat): (r: Option<nat>)
    ensures r.Some? <==> 1 <= index <= n
    ensures r.Some? ==> r.value < n && r.value + 1 == index
  {
    if 1 <= index <= n then Some((index - 1) as nat) else None
  }

  /** The listing labels position k with k + 1; the checked removal deletes the song with the label given. */
  lemma LabelledPositionInvertsLabel(n: nat, k: nat)
    requires k < n
    ensures LabelledPosition(k + 1, n) == Some(k)
    ensures DeletedPosition(k + 1, n) == LabelledPosition(k + 1, n)
  {
  }

  /** `_remove` with the label checked: only an index the listing shows removes anything. */
  method RemoveCommandChecked(state: Player.VoiceState, index: int) returns (reply: Reply)
    modifies state.songs
    ensures reply == EmptyQueue <==> old(state.songs.items) == []
    ensures reply == Done <==> old(state.songs.items) != [] && LabelledPosition(index, |old(state.songs.items)|).Some?
    ensures reply == Done ==> state.songs.items == Player.RemoveAt(old(state.songs.items), (index - 1) as nat)
    ensures reply != Done ==> state.songs.items == old(state.songs.items)
    ensures reply.Failed? ==> reply.error == Player.IndexError
  {
    var n := state.songs.Length();
    if n == 0 {
      return EmptyQueue;
    }
    if !(1 <= index <= n) {
      return Failed(Player.IndexError);
    }
    var r := state.songs.Remove(index - 1);
    reply := Done;
  }

  datatype SkipReply = NothingPlaying | Skipped(stopsPlayback: bool)

  /** `_skip`: refuses when nothing is loaded; otherwise the player stops the current song. */
  method SkipCommand(state: Player.VoiceState) returns (reply: SkipReply)
    ensures reply == NothingPlaying <==> !state.IsLoaded()
    ensures reply != NothingPlaying ==> reply == Skipped(true)
  {
    if !state.IsLoaded() {
      return NothingPlaying;
    }
    var stops := state.Skip();
    reply := Skipped(stops);
  }

  // ---------------------------------------------------------------------------
  // Joining and playing
  // ---------------------------------------------------------------------------

  const JoinVoiceFirstMessage := "Please join a voice channel!"
  const BotElsewhereMessage := "Bot already in a voice channel, please use join command"

  /**
   * `ensure_voice`, run before `_join` and `_play`: the message of the
   * CommandError it raises, or None when the command may go on. `author` is
   * the channel the author is in, `bot` the channel of the guild's voice client.
   */
  function EnsureVoice(author: Option<nat>, bot: Option<nat>): (r: Option<string>)
    ensures r.None? <==> author.Some? && (bot.Some? ==> bot == author)
    ensures author.None? ==> r == Some(JoinVoiceFirstMessage)
    ensures author.Some? && r.Some? ==> r == Some(BotElsewhereMessage)
  {
    if author.None? then Some(JoinVoiceFirstMessage)
    else if bot.Some? && bot != author then Some(BotElsewhereMessage)
    else None
  }

  /** `_join`: connects to the author's channel, or moves the connection there. */
  method JoinCommand(state: Player.VoiceState, channel: nat)
    modifies state
    ensures state.voice == Some(Player.Voice(channel))
    ensures state.current == old(state.current)
    ensures state.queuebuffer == old(state.queuebuffer) && state.bufferflag == old(state.bufferflag)
  {
    state.voice := Some(Player.Voice(channel));
  }

  /** The playlist items as queued songs, in playlist order. */
  function BasicSongs(items: seq<Ytdl.BasicMetadata>): (r: seq<Player.Song>)
    ensures |r| == |items|
    ensures forall k :: 0 <= k < |items| ==> r[k] == Player.Basic(items[k])
  {
    seq(|items|, k requires 0 <= k < |items| => Player.Basic(items[k]))
  }

  /** `YTDLMetadata.__str__`. */
  function Describe(meta: Ytdl.YTDLMetadata): string
  {
    "**" + Show(meta.title) + "** by **" + Show(meta.uploader) + "**"
  }

  datatype PlayReply =
    | EnqueuedOne(text: string)
    | EnqueuedMany(count: nat)
    | Reported(text: string)
    | Raised(error: Ytdl.Error)

  /**
   * `_play`, given what the extractor returned (the extraction itself is a
   * parameter): joins when there is no connection; a YTDLError is reported and
   * None is pushed, which enqueues nothing; any other exception escapes before
   * `pushEntry`; a result is announced and pushed.
   */
  method PlayCommand(state: Player.VoiceState, channel: nat, fetched: Result<Ytdl.Fetched, Ytdl.Error>)
    returns (reply: PlayReply)
    modifies state, state.songs
    ensures old(state.voice).None? ==> state.voice == Some(Player.Voice(channel))
    ensures old(state.voice).Some? ==> state.voice == old(state.voice)
    ensures state.current == old(state.current)
    ensures fetched.Failure? ==>
      && state.songs.items == old(state.songs.items)
      && state.queuebuffer == old(state.queuebuffer) && state.bufferflag == old(state.bufferflag)
    ensures fetched.Failure? && fetched.error.YTDLError? ==>
      reply == Reported("An error occured while processing the request: " + fetched.error.message)
    ensures fetched.Failure? && !fetched.error.YTDLError? ==> reply == Raised(fetched.error)
    ensures fetched.Success? && fetched.value.Single? ==> reply == EnqueuedOne("Enqueued " + Describe(fetched.value.meta))
    ensures fetched.Success? && fetched.value.Single? && !old(state.bufferflag) ==>
      state.songs.items == old(state.songs.items) + [Player.Full(fetched.value.meta)]
    ensures fetched.Success? && fetched.value.Playlist? ==>
      && reply == EnqueuedMany(|fetched.value.items|)
      && state.songs.items == old(state.songs.items) + old(state.queuebuffer) + BasicSongs(fetched.value.items)
      && state.Settled()
  {
    if state.voice.None? {
      JoinCommand(state, channel);
    }
    var source := Player.NoSource;
    match fetched {
      case Failure(e) =>
        if !e.YTDLError? {
          return Raised(e);
        }
        reply := Reported("An error occured while processing the request: " + e.message);
      case Success(Single(meta)) =>
        source := Player.Single(meta);
        reply := EnqueuedOne("Enqueued " + Describe(meta));
      case Success(Playlist(items)) =>
        source := Player.Batch(BasicSongs(items));
        reply := EnqueuedMany(|items|);
    }
    state.PushEntry(source);
  }
}
