/**
 * The per-guild song queue and the player state around it
 * (src/cogs/music/player.py). `SongQueue` is the deque behind an
 * `asyncio.Queue`, kept here as the sequence `items`; `VoiceState` holds that
 * queue, a side buffer that playlists are routed through, the buffering flag,
 * the song being played and the voice connection.
 */
module Player {
  import opened Wrappers
  import Ytdl

  /** A queued track: the full metadata of one video, or a playlist item. */
  datatype Song = Full(meta: Ytdl.YTDLMetadata) | Basic(item: Ytdl.BasicMetadata)

  /** What `pushEntry` is handed: one video, a list of items, or None after a failed fetch. */
  datatype Source = Single(meta: Ytdl.YTDLMetadata) | Batch(items: seq<Song>) | NoSource

  /** The voice connection. The queue logic only asks whether there is one. */
  datatype Voice = Voice(channel: nat)

  /** The exceptions indexing the deque can raise. */
  datatype QueueError = IndexError | ValueError

  // ---------------------------------------------------------------------------
  // Sequence helpers
  // ---------------------------------------------------------------------------

  /** Python accepts a deque index `i` when -n <= i < n; a negative one counts from the end. */
  predicate InRange(i: int, n: nat)
  {
    -(n as int) <= i < n
  }

  /** The position a valid Python index denotes. */
  function Position(i: int, n: nat): (k: nat)
    requires InRange(i, n)
    ensures k < n
    ensures i >= 0 ==> k == i
    ensures i < 0 ==> k + (-i) == n
  {
    if i < 0 then i + n else i
  }

  /** `s` without its element at position `k`; every other element keeps its order. */
  function RemoveAt<T>(s: seq<T>, k: nat): (r: seq<T>)
    requires k < |s|
    ensures |r| == |s| - 1
    ensures forall j :: 0 <= j < k ==> r[j] == s[j]
    ensures forall j :: k <= j < |r| ==> r[j] == s[j + 1]
    ensures multiset(r) + multiset{s[k]} == multiset(s)
  {
    assert s == s[..k] + [s[k]] + s[k + 1..];
    s[..k] + s[k + 1..]
  }

  /** Exchanges the elements at `i` and `j`. */
  function Swap<T>(s: seq<T>, i: nat, j: nat): (r: seq<T>)
    requires i < |s| && j < |s|
    ensures |r| == |s| && r[i] == s[j] && r[j] == s[i]
    ensures forall k :: 0 <= k < |s| && k != i && k != j ==> r[k] == s[k]
    ensures multiset(r) == multiset(s)
  {
    s[i := s[j]][j := s[i]]
  }

  /** The first index `itertools.islice` yields: `start`, or 0 when it is None. */
  function SliceStart(start: Option<int>): int
  {
    if start.Some? then start.value else 0
  }

  /** Where `itertools.islice` stops over `n` items: `stop` clamped to `n`, or `n` when None. */
  function SliceStop(stop: Option<int>, n: nat): int
  {
    if stop.Some? && stop.value < n then stop.value else n
  }

  // ---------------------------------------------------------------------------
  // SongQueue
  // ---------------------------------------------------------------------------

  /** An unbounded async queue of songs that also supports indexing, slicing and removal. */
  class SongQueue<T> {
    /** The deque `_queue`, head first. */
    var items: seq<T>

    constructor ()
      ensures items == []
    {
      items := [];
    }

    /** `__getitem__` with an integer: the element at that position, or IndexError. */
    method GetItem(index: int) returns (r: Result<T, QueueError>)
      ensures r.Success? <==> InRange(index, |items|)
      ensures r.Success? ==> r.value == items[Position(index, |items|)]
      ensures r.Failure? ==> r.error == IndexError
    {
      if InRange(index, |items|) {
        r := Success(items[Position(index, |items|)]);
      } else {
        r := Failure(IndexError);
      }
    }

    /**
     * `__getitem__` with a slice (step 1): `itertools.islice(_queue, start, stop)`.
     * islice refuses negative bounds with a ValueError.
     */
    method GetSlice(start: Option<int>, stop: Option<int>) returns (r: Result<seq<T>, QueueError>)
      ensures r.Failure? <==> (start.Some? && start.value < 0) || (stop.Some? && stop.value < 0)
      ensures r.Failure? ==> r.error == ValueError
      ensures r.Success? ==>
        var lo, hi := SliceStart(start), SliceStop(stop, |items|);
        && |r.value| == (if lo < hi then hi - lo else 0)
        && forall k :: 0 <= k < |r.value| ==> r.value[k] == items[lo + k]
    {
      if (start.Some? && start.value < 0) || (stop.Some? && stop.value < 0) {
        return Failure(ValueError);
      }
      var lo, hi := SliceStart(start), SliceStop(stop, |items|);
      if lo < hi {
        r := Success(items[lo..hi]);
      } else {
        r := Success([]);
      }
    }

    /** `__len__`: `qsize()`, the number of queued items. */
    method Length() returns (n: nat)
      ensures n == |items|
    {
      n := |items|;
    }

    /** `put` on an unbounded queue: it never blocks and appends at the tail. */
    method Put(x: T)
      modifies this
      ensures items == old(items) + [x]
    {
      items := items + [x];
    }

    /**
     * `get` as far as the queue is concerned: the head is taken when there is
     * one; on an empty queue `get` waits, which the model reports as None.
     */
    method Get() returns (r: Option<T>)
      modifies this
      ensures r.Some? <==> old(items) != []
      ensures r.Some? ==> r.value == old(items)[0] && items == old(items)[1..]
      ensures r.None? ==> items == old(items)
    {
      if items == [] {
        return None;
      }
      r := Some(items[0]);
      items := items[1..];
    }

    method Clear()
      modifies this
      ensures items == []
    {
      items := [];
    }

    /**
     * `random.shuffle` on the deque: for i from n-1 down to 1 it swaps position i
     * with a position j <= i drawn at random. The random source is the parameter:
     * `draws` supplies one draw per swap and the draw picks j modulo i + 1.
     */
    method Shuffle(draws: seq<nat>)
      requires |draws| + 1 >= |items|
      modifies this
      ensures |items| == old(|items|)
      ensures multiset(items) == multiset(old(items))
    {
      var n := |items|;
      var i := n - 1;
      while i > 0
        invariant -1 <= i < n || n == 0
        invariant |items| == n
        invariant multiset(items) == multiset(old(items))
      {
        var j := draws[n - 1 - i] % (i + 1);
        items := Swap(items, i, j);
        i := i - 1;
      }
    }

    /** `del _queue[index]`: removes exactly that element, or raises IndexError. */
    method Remove(index: int) returns (r: Result<(), QueueError>)
      modifies this
      ensures r.Success? <==> InRange(index, |old(items)|)
      ensures r.Success? ==> items == RemoveAt(old(items), Position(index, |old(items)|))
      ensures r.Failure? ==> r.error == IndexError && items == old(items)
    {
      if !InRange(index, |items|) {
        return Failure(IndexError);
      }
      items := RemoveAt(items, Position(index, |items|));
      r := Success(());
    }

    /** `appendleft`: `x` goes in front, the old queue follows unchanged. */
    method AppendLeft(x: T)
      modifies this
      ensures items == [x] + old(items)
    {
      items := [x] + items;
    }
  }

  // ---------------------------------------------------------------------------
  // VoiceState
  // ---------------------------------------------------------------------------

  /** The player of one guild. */
  class VoiceState {
    const songs: SongQueue<Song>
    /** `queuebuffer`, the FIFO side buffer a playlist is routed through. */
    var queuebuffer: seq<Song>
    var bufferflag: bool
    var current: Option<Song>
    var voice: Option<Voice>

    constructor ()
      ensures fresh(songs) && songs.items == []
      ensures queuebuffer == [] && !bufferflag && current == None && voice == None
    {
      songs := new SongQueue();
      queuebuffer := [];
      bufferflag := false;
      current := None;
      voice := None;
    }

    /** `is_loaded`: there is a voice connection and a song being played. */
    predicate IsLoaded()
      reads this
    {
      voice.Some? && current.Some?
    }

    /** No playlist is half-way through the side buffer. */
    predicate Settled()
      reads this
    {
      !bufferflag && queuebuffer == []
    }

    /** `push_queue_buffer`: drains the side buffer into the song queue, in order, and lowers the flag. */
    method PushQueueBuffer()
      modifies this, songs
      ensures songs.items == old(songs.items) + old(queuebuffer)
      ensures queuebuffer == [] && !bufferflag
      ensures current == old(current) && voice == old(voice)
    {
      while |queuebuffer| > 0
        invariant songs.items + queuebuffer == old(songs.items) + old(queuebuffer)
        invariant current == old(current) && voice == old(voice)
        decreases |queuebuffer|
      {
        var item := queuebuffer[0];
        queuebuffer := queuebuffer[1..];
        songs.Put(item);
      }
      bufferflag := false;
    }

    /**
     * `pushEntry`: a single video goes to the tail of the queue, or to the side
     * buffer while a playlist is being pushed; a list raises the flag, goes
     * through the side buffer after whatever is waiting there, and is drained into
     * the queue; anything else (None after a failed fetch) is ignored.
     */
    method PushEntry(source: Source)
      modifies this, songs
      ensures source.Single? && !old(bufferflag) ==>
        songs.items == old(songs.items) + [Full(source.meta)] && queuebuffer == old(queuebuffer) && !bufferflag
      ensures source.Single? && old(bufferflag) ==>
        songs.items == old(songs.items) && queuebuffer == old(queuebuffer) + [Full(source.meta)] && bufferflag
      ensures source.Batch? ==>
        songs.items == old(songs.items) + old(queuebuffer) + source.items && queuebuffer == [] && !bufferflag
      ensures source.NoSource? ==>
        songs.items == old(songs.items) && queuebuffer == old(queuebuffer) && bufferflag == old(bufferflag)
      ensures old(Settled()) ==> Settled()
      ensures current == old(current) && voice == old(voice)
    {
      match source {
        case Single(meta) =>
          if !bufferflag {
            songs.Put(Full(meta));
          } else {
            queuebuffer := queuebuffer + [Full(meta)];
          }
        case Batch(items) =>
          bufferflag := true;
          var i := 0;
          while i < |items|
            invariant 0 <= i <= |items|
            invariant queuebuffer == old(queuebuffer) + items[..i]
            invariant songs.items == old(songs.items)
            invariant current == old(current) && voice == old(voice)
          {
            queuebuffer := queuebuffer + [items[i]];
            i := i + 1;
          }
          assert items[..i] == items;
          PushQueueBuffer();
        case NoSource =>
      }
    }

    /**
     * The first half of one round of `audio_player_task`: the head of the queue
     * becomes `current`. On an empty queue the task keeps waiting (false).
     */
    method TakeNext() returns (taken: bool)
      modifies this, songs
      ensures taken <==> old(songs.items) != []
      ensures taken ==> current == Some(old(songs.items)[0]) && songs.items == old(songs.items)[1..]
      ensures !taken ==> current == old(current) && songs.items == old(songs.items)
      ensures voice == old(voice) && queuebuffer == old(queuebuffer) && bufferflag == old(bufferflag)
    {
      var next := songs.Get();
      taken := next.Some?;
      if taken {
        current := next;
      }
    }

    /** The end of one round of `audio_player_task`: the finished song is forgotten. */
    method FinishCurrent()
      modifies this
      ensures current == None
      ensures voice == old(voice) && queuebuffer == old(queuebuffer) && bufferflag == old(bufferflag)
    {
      current := None;
    }

    /**
     * `skip`: stops the voice client (which ends the current song) exactly when
     * something is loaded; the state itself is not touched.
     */
    method Skip() returns (stopsPlayback: bool)
      ensures stopsPlayback <==> voice.Some? && current.Some?
    {
      stopsPlayback := IsLoaded();
    }

    /**
     * `stop`: empties the queue; when connected, disconnects and forgets both the
     * connection and the current song.
     */
    method Stop()
      modifies this, songs
      ensures songs.items == []
      ensures old(voice).Some? ==> voice == None && current == None
      ensures old(voice).None? ==> voice == None && current == old(current)
      ensures queuebuffer == old(queuebuffer) && bufferflag == old(bufferflag)
    {
      songs.Clear();
      if voice.Some? {
        voice := None;
        current := None;
      }
    }
  }
}
