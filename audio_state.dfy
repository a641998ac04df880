/** `AudioStreamModule.AudioState` (Bot.Core/Modules/Audio/AudioStreamModule.cs):
    the per-server playback session. Commands only flip flags; the playlist loop
    and the per-track frame loop consume and clear them.

    Concurrency is modelled by interleaving: while a track plays, one scheduled
    command runs before each step of the frame loop. Messages the state sends to
    its chat channel are an append-only `notices` log, frames handed to the voice
    client an append-only `sent` log, and the decoder's output for the current
    track is `stream`, read from `readPos` on. */
module Audio {
  import opened Wrappers
  import TrackData

  type Frame = TrackData.Frame
  type Track = TrackData.Track

  const MinInt32: int := -0x8000_0000
  const MaxInt32: int := 0x7FFF_FFFF

  /** A Discord channel as seen by the audio state; `botCanSpeak` is the bot's
      Speak permission in it. */
  datatype Channel = Channel(id: nat, serverId: nat, name: string, isVoice: bool, botCanSpeak: bool)

  /** The messages the audio state and its commands send to the chat channel. */
  datatype Notice =
    | NoTracks
    | PlaybackChannelNotSet
    | NotVoiceChannel
    | NoSpeakPermission(channelName: string)
    | TrackChannelNotSet
    | NoVoiceClient
    | NowPlaying(name: string, length: int)
    | IndexReset(index: int, count: nat)
    | AddFailed(location: string)
    | Added(name: string)
    | Removed(name: string)
    | PlaybackChannelSet(channelName: string)

  /** The commands that can arrive while a track plays; `SetPos` and `Remove`
      carry the already parsed, one-based number the user typed. */
  datatype Command =
    | Goto(time: int)
    | Stop
    | Next
    | Prev
    | Current
    | Toggle
    | Add(location: string)
    | SetPos(number: int)
    | Remove(number: int)
    | Clear

  /** The `TrackIndex` setter: below zero goes to the last track, at or past the
      end goes to the first, anything else is kept. */
  function ClampIndex(count: nat, value: int): (r: int)
    ensures count > 0 ==> 0 <= r < count
    ensures 0 <= value < count ==> r == value
    ensures count > 0 && value < 0 ==> r == count - 1
    ensures count > 0 && value >= count ==> r == 0
  {
    if value < 0 then count - 1
    else if value >= count then 0
    else value
  }

  /** From a valid position, `TrackIndex++` and `TrackIndex--` wrap around the
      playlist like arithmetic modulo its length. */
  lemma ClampedStepsWrap(count: nat, index: int)
    requires 0 <= index < count
    ensures ClampIndex(count, index + 1) == (index + 1) % count
    ensures ClampIndex(count, index - 1) == (index - 1 + count) % count
  {
    if index + 1 < count {
      ModOfSmall(index + 1, count);
    } else {
      ModOfSmall(0, count);
      assert (index + 1) % count == (0 + count) % count;
    }
    if index == 0 {
      ModOfSmall(count - 1, count);
    } else {
      ModOfSmall(index - 1, count);
    }
  }

  lemma ModOfSmall(a: int, n: int)
    requires 0 <= a < n
    ensures a % n == a && (a + n) % n == a
  {
  }

  /** A value past the end is not reduced modulo the length: it restarts at 0. */
  lemma ClampIsNotModulo(count: nat)
    requires count > 1
    ensures ClampIndex(count, count + 1) == 0 != (count + 1) % count
  {
    assert (count + 1) % count == 1 by {
      assert count + 1 == 1 * count + 1;
    }
  }

  /** `Pause(val)`: with no value the flag toggles, otherwise it takes the value. */
  function PauseFlag(current: bool, val: Option<bool>): (r: bool)
    ensures val.Some? ==> r == val.value
    ensures val.None? ==> r != current
  {
    if val.None? then !current else val.value
  }

  /** Two toggles restore the flag. */
  lemma ToggleTwiceRestores(current: bool)
    ensures PauseFlag(PauseFlag(current, None), None) == current
  {
  }

  /** `int.Parse(arg) - 1` in unchecked 32-bit arithmetic. */
  function PositionOf(number: int): (r: int)
    requires MinInt32 <= number <= MaxInt32
    ensures MinInt32 <= r <= MaxInt32
    ensures number > MinInt32 ==> r + 1 == number
  {
    if number == MinInt32 then MaxInt32 else number - 1
  }

  /** How `PrintCurrentTrack` ends. */
  datatype PrintOutcome = Printed | IndexWasReset | Escaped

  /** `PrintCurrentTrack` as written: `Playlist[TrackIndex]` on a `List` throws
      `ArgumentOutOfRangeException`, which the `catch (IndexOutOfRangeException)`
      does not match, so an index outside the playlist escapes. */
  function PrintOutcomeAsWritten(index: int, count: nat): (r: PrintOutcome)
    ensures r == Escaped <==> !(0 <= index < count)
    ensures r != IndexWasReset
  {
    if 0 <= index < count then Printed else Escaped
  }

  /** `PrintCurrentTrack` as intended: an index outside the playlist is reported
      and reset. */
  function PrintOutcomeIntended(index: int, count: nat): (r: PrintOutcome)
    ensures r == IndexWasReset <==> !(0 <= index < count)
    ensures r != Escaped
  {
    if 0 <= index < count then Printed else IndexWasReset
  }

  /** After removing the last track while the index points at it, the reset
      that was meant to repair the index never runs. */
  lemma DanglingIndexEscapesReset()
    ensures PrintOutcomeAsWritten(1, 1) == Escaped
    ensures PrintOutcomeIntended(1, 1) == IndexWasReset
  {
  }

  /** The code as written and the intended code agree on every cursor inside
      the playlist and disagree on every cursor outside it. */
  lemma PrintOutcomesDifferOnDanglingCursor(index: int, count: nat)
    ensures PrintOutcomeAsWritten(index, count) == PrintOutcomeIntended(index, count) <==> 0 <= index < count
    ensures 0 <= index < count ==> PrintOutcomeAsWritten(index, count) == Printed
  {
  }

  /** The index the playlist loop moves to after a track: back one when the
      previous flag was set, unchanged after a skip, forward one otherwise. */
  function NextTrackIndex(prev: bool, skipTo: bool, index: int, count: nat): (r: int)
    ensures count > 0 && prev ==> r == ClampIndex(count, index - 1)
    ensures count > 0 && !prev && !skipTo ==> r == ClampIndex(count, index + 1)
    ensures !prev && skipTo ==> r == index
  {
    if prev then ClampIndex(count, index - 1)
    else if !skipTo then ClampIndex(count, index + 1)
    else index
  }

  /** From a valid position the loop visits the next track, the previous one or
      the same one, modulo the playlist length. */
  lemma NextTrackIndexWraps(prev: bool, skipTo: bool, index: int, count: nat)
    requires 0 <= index < count
    ensures prev ==> NextTrackIndex(prev, skipTo, index, count) == (index - 1 + count) % count
    ensures !prev && !skipTo ==> NextTrackIndex(prev, skipTo, index, count) == (index + 1) % count
    ensures 0 <= NextTrackIndex(prev, skipTo, index, count) < count
  {
    ClampedStepsWrap(count, index);
  }

  /** One line of the `list` command. */
  datatype Entry = Entry(number: int, name: string, playing: bool)

  /** What the `list` command sends. */
  datatype Listing = PlaylistEmpty | Entries(entries: seq<Entry>)

  /** How `StartCurrentTrackPlayback` gets past its set-up. */
  datatype BeginOutcome = NotStarted | IndexFault | Streaming

  /** How `StartCurrentTrackPlayback` ends. `Stalled`: playback is paused and no
      further command arrives, so the source would wait for ever. */
  datatype TrackOutcome = TrackNotStarted | TrackIndexFault | Finished(streamEnded: bool) | Stalled

  /** How `StartPlaylist` ends. `Suspended`: the loop is still running when no
      further command schedule is given. */
  datatype PlaylistOutcome =
    | AlreadyPlaying
    | Refused(reason: Notice)
    | JoinFailed
    | StoppedByFlag
    | Emptied
    | Faulted
    | Suspended

  class AudioState {
    const hostServerId: nat
    /** `HostServer != null`. */
    var hostBound: bool
    var playlist: seq<Track>
    /** `_trackIndex`; only the setter clamps it, so removals can leave it dangling. */
    var trackIndex: int
    var playbackChannel: Option<Channel>
    var playbackChannelId: nat
    var chatChannel: Option<Channel>
    var isPlaying: bool
    var stopTrack: bool
    var stopPlaylist: bool
    var pause: bool
    var prev: bool
    var skipTo: bool
    /** Ticks into the track to resume at when `skipTo` is set. */
    var skipTime: int
    /** `_voiceClient != null`. */
    var voiceJoined: bool
    /** Decoder output of the current track and how much of it has been read. */
    var stream: seq<Frame>
    var readPos: nat
    /** Every frame handed to the voice client, in order. */
    var sent: seq<Frame>
    /** Every message sent to the chat channel, in order. */
    var notices: seq<Notice>

    ghost predicate Valid()
      reads this
    {
      readPos <= |stream|
    }

    /** The tracks of the playlist, the objects `GetStream` may update. */
    ghost function Tracks(): set<object>
      reads this
    {
      set t | t in playlist :: t as object
    }

    /** `AudioState(Server host, DiscordClient client)` (AudioStreamModule.cs:101-105). */
    constructor (hostServerId: nat)
      ensures Valid()
      ensures this.hostServerId == hostServerId && hostBound
      ensures playlist == [] && trackIndex == 0
      ensures playbackChannel == None && chatChannel == None
      ensures !isPlaying && !stopTrack && !stopPlaylist && !pause && !prev && !skipTo && skipTime == 0
      ensures !voiceJoined && sent == [] && notices == []
    {
      this.hostServerId := hostServerId;
      hostBound := true;
      playlist := [];
      trackIndex := ClampIndex(0, 0);
      playbackChannel := None;
      playbackChannelId := 0;
      chatChannel := None;
      isPlaying, stopTrack, stopPlaylist, pause, prev, skipTo := false, false, false, false, false, false;
      skipTime := 0;
      voiceJoined := false;
      stream, readPos, sent, notices := [], 0, [], [];
    }

    /** The JSON constructor (AudioStreamModule.cs:92-99): the stored index goes
        through the setter. */
    constructor Restore(hostServerId: nat, playlist: seq<Track>, trackIndex: nat, playbackChannelId: nat)
      requires trackIndex <= 0xFFFF
      ensures Valid()
      ensures this.hostServerId == hostServerId && !hostBound
      ensures this.playlist == playlist && this.trackIndex == ClampIndex(|playlist|, trackIndex)
      ensures this.playbackChannelId == playbackChannelId && playbackChannel == None
      ensures !isPlaying && !stopTrack && !stopPlaylist && !pause && !prev && !skipTo && skipTime == 0
      ensures !voiceJoined && sent == [] && notices == []
    {
      this.hostServerId := hostServerId;
      hostBound := false;
      this.playlist := playlist;
      this.trackIndex := ClampIndex(|playlist|, trackIndex);
      playbackChannel := None;
      this.playbackChannelId := playbackChannelId;
      chatChannel := None;
      isPlaying, stopTrack, stopPlaylist, pause, prev, skipTo := false, false, false, false, false, false;
      skipTime := 0;
      voiceJoined := false;
      stream, readPos, sent, notices := [], 0, [], [];
    }

    /** `FinishLoading`: `None` where it throws because the host is already bound;
        otherwise whether the stored server still exists. */
    method FinishLoading(serverExists: nat -> bool) returns (r: Option<bool>)
      modifies this`hostBound
      ensures old(hostBound) ==> r == None && hostBound
      ensures !old(hostBound) ==> r == Some(serverExists(hostServerId)) && hostBound == serverExists(hostServerId)
    {
      if hostBound {
        return None;
      }
      if !serverExists(hostServerId) {
        return Some(false);
      }
      hostBound := true;
      return Some(true);
    }

    /** The `TrackIndex` setter. */
    method SetTrackIndex(value: int)
      modifies this`trackIndex
      ensures trackIndex == ClampIndex(|playlist|, value)
    {
      if value < 0 {
        trackIndex := |playlist| - 1;
      } else if value >= |playlist| {
        trackIndex := 0;
      } else {
        trackIndex := value;
      }
    }

    /** The `PlaybackChannel` setter: a null channel is stored and then reading
        its id throws, so the id keeps its old value. */
    method SetPlaybackChannel(channel: Option<Channel>) returns (faulted: bool)
      modifies this`playbackChannel, this`playbackChannelId
      ensures playbackChannel == channel
      ensures faulted <==> channel.None?
      ensures channel.Some? ==> playbackChannelId == channel.value.id
      ensures channel.None? ==> playbackChannelId == old(playbackChannelId)
    {
      playbackChannel := channel;
      if channel.None? {
        return true;
      }
      playbackChannelId := channel.value.id;
      return false;
    }

    /** The `channel` command's tail: the new channel is announced unless the
        setter threw. */
    method ChannelCommand(channel: Option<Channel>)
      modifies this`playbackChannel, this`playbackChannelId, this`notices
      ensures playbackChannel == channel
      ensures channel.Some? ==> playbackChannelId == channel.value.id
      ensures notices == old(notices) + (if channel.Some? then [PlaybackChannelSet(channel.value.name)] else [])
    {
      var faulted := SetPlaybackChannel(channel);
      if !faulted {
        notices := notices + [PlaybackChannelSet(channel.value.name)];
      }
    }

    method ClearPlaylist()
      modifies this`stopPlaylist, this`playlist
      ensures stopPlaylist && playlist == []
    {
      stopPlaylist := true;
      playlist := [];
    }

    method StopPlaylist()
      modifies this`stopPlaylist, this`stopTrack
      ensures stopPlaylist && stopTrack
    {
      stopPlaylist := true;
      stopTrack := true;
    }

    method StopPlayback()
      modifies this`stopTrack, this`pause
      ensures stopTrack && !pause
    {
      stopTrack := true;
      pause := false;
    }

    method Pause(val: Option<bool>)
      modifies this`pause
      ensures pause == PauseFlag(old(pause), val)
    {
      var v := val;
      if v.None? {
        v := Some(!pause);
      }
      pause := v.value;
    }

    /** `SkipToTimeInTrack`: `faulted` where reading the current track throws
        because the index is outside the playlist. */
    method SkipToTimeInTrack(time: int) returns (faulted: bool)
      modifies this`stopTrack, this`pause, this`skipTo, this`skipTime
      ensures faulted <==> isPlaying && !(0 <= trackIndex < |playlist|)
      ensures !isPlaying || faulted || time >= playlist[trackIndex].length ==>
                stopTrack == old(stopTrack) && pause == old(pause) && skipTo == old(skipTo) && skipTime == old(skipTime)
      ensures isPlaying && !faulted && time < playlist[trackIndex].length ==>
                stopTrack && !pause && skipTo && skipTime == time
    {
      faulted := false;
      if !isPlaying {
        return;
      }
      if !(0 <= trackIndex < |playlist|) {
        return true;
      }
      if time >= playlist[trackIndex].length {
        return;
      }
      stopTrack := true;
      pause := false;
      skipTo := true;
      skipTime := time;
    }

    method SkipToTrack(index: int)
      modifies this`stopTrack, this`pause, this`skipTo, this`trackIndex
      ensures !isPlaying ==>
                stopTrack == old(stopTrack) && pause == old(pause) && skipTo == old(skipTo) && trackIndex == old(trackIndex)
      ensures isPlaying ==> stopTrack && !pause && skipTo && trackIndex == ClampIndex(|playlist|, index)
    {
      if !isPlaying {
        return;
      }
      stopTrack := true;
      pause := false;
      skipTo := true;
      SetTrackIndex(index);
    }

    /** `Previous` does not check `IsPlaying`. */
    method Previous()
      modifies this`prev, this`stopTrack, this`pause
      ensures prev && stopTrack && !pause
    {
      prev := true;
      StopPlayback();
    }

    /** `PrintCurrentTrack` with the reset it was meant to perform: an index
        outside the playlist is reported and set to 0. */
    method PrintCurrentTrack()
      modifies this`notices, this`trackIndex
      ensures PrintOutcomeIntended(old(trackIndex), |playlist|) == Printed ==>
                trackIndex == old(trackIndex) &&
                notices == old(notices) + [NowPlaying(playlist[trackIndex].name, playlist[trackIndex].length)]
      ensures PrintOutcomeIntended(old(trackIndex), |playlist|) == IndexWasReset ==>
                trackIndex == 0 && notices == old(notices) + [IndexReset(old(trackIndex), |playlist|)]
    {
      if 0 <= trackIndex < |playlist| {
        var t := playlist[trackIndex];
        notices := notices + [NowPlaying(t.name, t.length)];
      } else {
        notices := notices + [IndexReset(trackIndex, |playlist|)];
        SetTrackIndex(0);
      }
    }

    /** `PrintCurrentTrack` as written (AudioStreamModule.cs:309-327): the
        `List` indexer's `ArgumentOutOfRangeException` passes the
        `catch (IndexOutOfRangeException)`, so an index outside the playlist
        escapes with nothing reported and the index kept. */
    method PrintCurrentTrackAsWritten() returns (escaped: bool)
      modifies this`notices
      ensures escaped <==> PrintOutcomeAsWritten(trackIndex, |playlist|) == Escaped
      ensures escaped <==> !(0 <= trackIndex < |playlist|)
      ensures trackIndex == old(trackIndex)
      ensures escaped ==> notices == old(notices)
      ensures !escaped ==> notices == old(notices) + [NowPlaying(playlist[trackIndex].name, playlist[trackIndex].length)]
    {
      if !(0 <= trackIndex < |playlist|) {
        return true;
      }
      var t := playlist[trackIndex];
      notices := notices + [NowPlaying(t.name, t.length)];
      return false;
    }

    /** The `add` command: the parsed track is appended; the index is left alone. */
    method AddCommand(location: string, io: TrackData.Io)
      modifies this`playlist, this`notices
      ensures !io.fileExists(location) && TrackData.FirstResolver(location, io).None? ==>
                playlist == old(playlist) && notices == old(notices) + [AddFailed(location)]
      ensures io.fileExists(location) || TrackData.FirstResolver(location, io).Some? ==>
                |playlist| == |old(playlist)| + 1 && playlist[..|old(playlist)|] == old(playlist) &&
                fresh(playlist[|old(playlist)|]) && playlist[|old(playlist)|].location == location &&
                notices == old(notices) + [Added(playlist[|old(playlist)|].name)]
      ensures forall o :: o in Tracks() ==> o in old(Tracks()) || fresh(o)
    {
      var t := TrackData.Parse(location, io);
      if t == null {
        notices := notices + [AddFailed(location)];
        return;
      }
      playlist := playlist + [t];
      notices := notices + [Added(t.name)];
      assert forall x :: x in playlist ==> x in old(playlist) || x == t;
    }

    /** The `setpos` command. */
    method SetPosCommand(number: int)
      requires MinInt32 <= number <= MaxInt32
      modifies this`stopTrack, this`pause, this`skipTo, this`trackIndex
      ensures !isPlaying ==>
                stopTrack == old(stopTrack) && pause == old(pause) && skipTo == old(skipTo) && trackIndex == old(trackIndex)
      ensures isPlaying ==> stopTrack && !pause && skipTo && trackIndex == ClampIndex(|playlist|, PositionOf(number))
    {
      SkipToTrack(PositionOf(number));
    }

    /** The `remove` command: `faulted` where the list indexer throws; the index
        is left alone, so it may now point past the end. */
    method RemoveCommand(number: int) returns (faulted: bool)
      requires MinInt32 <= number <= MaxInt32
      modifies this`playlist, this`notices
      ensures faulted <==> !(0 <= PositionOf(number) < |old(playlist)|)
      ensures faulted ==> playlist == old(playlist) && notices == old(notices)
      ensures !faulted ==>
                var at := PositionOf(number);
                playlist == old(playlist)[..at] + old(playlist)[at + 1..] &&
                notices == old(notices) + [Removed(old(playlist)[at].name)]
      ensures Tracks() <= old(Tracks())
    {
      var at := PositionOf(number);
      if !(0 <= at < |playlist|) {
        return true;
      }
      var removed := playlist[at];
      playlist := playlist[..at] + playlist[at + 1..];
      notices := notices + [Removed(removed.name)];
      assert forall x :: x in playlist ==> x in old(playlist);
      return false;
    }

    /** The `list` command: one entry per track, numbered from 1, with the
        playing marker on the current track only while playing. */
    method ListCommand() returns (listing: Listing)
      ensures listing == PlaylistEmpty <==> playlist == []
      ensures listing.Entries? ==> |listing.entries| == |playlist|
      ensures listing.Entries? ==> forall i :: 0 <= i < |playlist| ==>
                listing.entries[i] == Entry(i + 1, playlist[i].name, i == trackIndex && isPlaying)
    {
      if playlist == [] {
        return PlaylistEmpty;
      }
      var entries: seq<Entry> := [];
      var i := 0;
      while i < |playlist|
        invariant 0 <= i <= |playlist|
        invariant |entries| == i
        invariant forall j :: 0 <= j < i ==> entries[j] == Entry(j + 1, playlist[j].name, j == trackIndex && isPlaying)
      {
        entries := entries + [Entry(i + 1, playlist[i].name, i == trackIndex && isPlaying)];
        i := i + 1;
      }
      return Entries(entries);
    }

    /** One command arriving while a track plays. Exceptions inside a command
        end that command's handler only. */
    method Apply(cmd: Command, io: TrackData.Io)
      requires cmd.SetPos? || cmd.Remove? ==> MinInt32 <= cmd.number <= MaxInt32
      modifies this`stopTrack, this`stopPlaylist, this`pause, this`prev, this`skipTo, this`skipTime,
               this`trackIndex, this`playlist, this`notices
      ensures forall o :: o in Tracks() ==> o in old(Tracks()) || fresh(o)
      ensures cmd.Toggle? ==> pause == !old(pause)
      ensures cmd.Stop? ==> stopPlaylist && stopTrack
      ensures cmd.Next? ==> stopTrack && !pause
      ensures cmd.Prev? ==> prev && stopTrack && !pause
      ensures cmd.Toggle? || cmd.Stop? || cmd.Next? || cmd.Prev? ==>
                playlist == old(playlist) && trackIndex == old(trackIndex) && notices == old(notices)
      ensures !cmd.Clear? && !cmd.Stop? ==> stopPlaylist == old(stopPlaylist)
      ensures !cmd.Prev? ==> prev == old(prev)
      // `goto`: a seek inside the current track while playing, otherwise nothing.
      ensures cmd.Goto? ==> playlist == old(playlist) && trackIndex == old(trackIndex) && notices == old(notices)
      ensures cmd.Goto? && isPlaying && 0 <= trackIndex < |playlist| && cmd.time < playlist[trackIndex].length ==>
                stopTrack && !pause && skipTo && skipTime == cmd.time
      ensures cmd.Goto? && !(isPlaying && 0 <= trackIndex < |playlist| && cmd.time < playlist[trackIndex].length) ==>
                stopTrack == old(stopTrack) && pause == old(pause) && skipTo == old(skipTo) && skipTime == old(skipTime)
      // `setpos`: a jump to the numbered track while playing, otherwise nothing.
      ensures cmd.SetPos? ==> playlist == old(playlist) && notices == old(notices)
      ensures cmd.SetPos? && isPlaying ==>
                stopTrack && !pause && skipTo && trackIndex == ClampIndex(|playlist|, PositionOf(cmd.number))
      ensures cmd.SetPos? && !isPlaying ==>
                stopTrack == old(stopTrack) && pause == old(pause) && skipTo == old(skipTo) && trackIndex == old(trackIndex)
      // `clear`: the playlist empties and the playing track goes on.
      ensures cmd.Clear? ==>
                playlist == [] && stopPlaylist && stopTrack == old(stopTrack) && pause == old(pause) &&
                trackIndex == old(trackIndex)
      // `add`: one new track at the end, or a failure notice.
      ensures cmd.Add? ==> trackIndex == old(trackIndex)
      ensures cmd.Add? && !io.fileExists(cmd.location) && TrackData.FirstResolver(cmd.location, io).None? ==>
                playlist == old(playlist) && notices == old(notices) + [AddFailed(cmd.location)]
      ensures cmd.Add? && (io.fileExists(cmd.location) || TrackData.FirstResolver(cmd.location, io).Some?) ==>
                |playlist| == |old(playlist)| + 1 && playlist[..|old(playlist)|] == old(playlist) &&
                playlist[|old(playlist)|].location == cmd.location &&
                notices == old(notices) + [Added(playlist[|old(playlist)|].name)]
      // `remove`: the numbered track leaves, the index stays where it was.
      ensures cmd.Remove? ==> trackIndex == old(trackIndex)
      ensures cmd.Remove? && 0 <= PositionOf(cmd.number) < |old(playlist)| ==>
                playlist == old(playlist)[..PositionOf(cmd.number)] + old(playlist)[PositionOf(cmd.number) + 1..] &&
                notices == old(notices) + [Removed(old(playlist)[PositionOf(cmd.number)].name)]
      ensures cmd.Remove? && !(0 <= PositionOf(cmd.number) < |old(playlist)|) ==>
                playlist == old(playlist) && notices == old(notices)
      // `current`: the corrected `PrintCurrentTrack`.
      ensures cmd.Current? ==> playlist == old(playlist)
      ensures cmd.Current? && 0 <= old(trackIndex) < |playlist| ==>
                trackIndex == old(trackIndex) &&
                notices == old(notices) + [NowPlaying(playlist[trackIndex].name, playlist[trackIndex].length)]
      ensures cmd.Current? && !(0 <= old(trackIndex) < |playlist|) ==>
                trackIndex == 0 && notices == old(notices) + [IndexReset(old(trackIndex), |playlist|)]
    {
      match cmd {
        case Goto(time) =>
          var _ := SkipToTimeInTrack(time);
        case Stop =>
          StopPlaylist();
        case Next =>
          StopPlayback();
        case Prev =>
          Previous();
        case Current =>
          PrintCurrentTrack();
        case Toggle =>
          Pause(None);
        case Add(location) =>
          AddCommand(location, io);
        case SetPos(number) =>
          SetPosCommand(number);
        case Remove(number) =>
          var _ := RemoveCommand(number);
        case Clear =>
          ClearPlaylist();
      }
    }

    /** One pass of the frame loop (AudioStreamModule.cs:239-255). `ended` is the
        decoder's end-of-stream signal: nothing is left to read. */
    method FrameStep() returns (exit: bool)
      requires Valid()
      modifies this`stopTrack, this`pause, this`readPos, this`sent
      ensures Valid()
      ensures old(stopTrack) ==> exit && !stopTrack && !pause && readPos == old(readPos) && sent == old(sent)
      ensures !old(stopTrack) ==> stopTrack == old(stopTrack) && pause == old(pause)
      ensures !old(stopTrack) && old(pause) ==> !exit && readPos == old(readPos) && sent == old(sent)
      ensures !old(stopTrack) && !old(pause) && old(readPos) == |stream| ==>
                exit && readPos == old(readPos) && sent == old(sent)
      ensures !old(stopTrack) && !old(pause) && old(readPos) < |stream| ==>
                !exit && readPos == old(readPos) + 1 && sent == old(sent) + [stream[old(readPos)]]
    {
      if stopTrack {
        pause := false;
        stopTrack := false;
        return true;
      }
      if pause {
        return false;
      }
      var ended := readPos == |stream|;
      if ended {
        return true;
      }
      sent := sent + [stream[readPos]];
      readPos := readPos + 1;
      return false;
    }

    /** The set-up of `StartCurrentTrackPlayback` (AudioStreamModule.cs:201-237).
        `IsPlaying` is set before the current track is read, so an index outside
        the playlist throws with `IsPlaying` left true. */
    method BeginTrack(io: TrackData.Io) returns (b: BeginOutcome)
      requires Valid()
      modifies this`isPlaying, this`stopTrack, this`notices, this`skipTo, this`skipTime, this`trackIndex,
               this`stream, this`readPos, Tracks()
      ensures Valid()
      ensures old(isPlaying) ==> b == NotStarted && notices == old(notices)
      ensures !old(isPlaying) && playbackChannel.None? ==>
                b == NotStarted && notices == old(notices) + [TrackChannelNotSet]
      ensures !old(isPlaying) && playbackChannel.Some? && !voiceJoined ==>
                b == NotStarted && notices == old(notices) + [NoVoiceClient]
      ensures b == NotStarted ==>
                isPlaying == old(isPlaying) && stopTrack == old(stopTrack) &&
                skipTo == old(skipTo) && trackIndex == old(trackIndex)
      ensures !old(isPlaying) && playbackChannel.Some? && voiceJoined ==> isPlaying && !stopTrack
      ensures b == IndexFault <==>
                !old(isPlaying) && playbackChannel.Some? && voiceJoined && !(0 <= old(trackIndex) < |playlist|)
      ensures b == IndexFault ==> notices == old(notices) && skipTo == old(skipTo)
      ensures b == Streaming ==>
                var t := playlist[old(trackIndex)];
                trackIndex == old(trackIndex) && readPos == 0 && !skipTo &&
                stream == io.decode(TrackData.StreamSource(t.location, t.cached, io), if old(skipTo) then old(skipTime) else 0) &&
                skipTime == (if old(skipTo) then 0 else old(skipTime)) &&
                notices == old(notices) + (if old(skipTo) then [] else [NowPlaying(t.name, t.length)])
    {
      if isPlaying {
        return NotStarted;
      }
      if playbackChannel.None? {
        notices := notices + [TrackChannelNotSet];
        return NotStarted;
      }
      if !voiceJoined {
        notices := notices + [NoVoiceClient];
        return NotStarted;
      }
      stopTrack := false;
      isPlaying := true;
      if !(0 <= trackIndex < |playlist|) {
        return IndexFault;
      }
      OpenStream(io);
      return Streaming;
    }

    /** The part of `StartCurrentTrackPlayback` after the current track was
        read (AudioStreamModule.cs:218-230): the stream is opened at the pending
        seek position, or at the start with the track announced. */
    method OpenStream(io: TrackData.Io)
      requires 0 <= trackIndex < |playlist|
      modifies this`notices, this`skipTo, this`skipTime, this`trackIndex, this`stream, this`readPos, Tracks()
      ensures Valid()
      ensures var t := playlist[old(trackIndex)];
              trackIndex == old(trackIndex) && readPos == 0 && !skipTo &&
              stream == io.decode(TrackData.StreamSource(t.location, t.cached, io), if old(skipTo) then old(skipTime) else 0) &&
              skipTime == (if old(skipTo) then 0 else old(skipTime)) &&
              notices == old(notices) + (if old(skipTo) then [] else [NowPlaying(t.name, t.length)])
    {
      var t := playlist[trackIndex];
      assert t as object in Tracks() by {
        assert t in playlist;
      }
      var url, _ := t.GetStream(io);
      if skipTo {
        stream := io.decode(url, skipTime);
        skipTime := 0;
        skipTo := false;
      } else {
        PrintCurrentTrack();
        stream := io.decode(url, 0);
      }
      readPos := 0;
    }

    /** The frame loop of `StartCurrentTrackPlayback` (AudioStreamModule.cs:239-257)
        with one scheduled command before each pass. Every frame sent is the next
        one the decoder produced, and `IsPlaying` is cleared when the loop ends. */
    method RunFrames(io: TrackData.Io, schedule: seq<Command>) returns (r: TrackOutcome)
      requires Valid() && isPlaying
      requires forall k :: 0 <= k < |schedule| ==> (schedule[k].SetPos? || schedule[k].Remove? ==>
                 MinInt32 <= schedule[k].number <= MaxInt32)
      modifies this`stopTrack, this`stopPlaylist, this`pause, this`prev, this`skipTo, this`skipTime,
               this`trackIndex, this`playlist, this`notices, this`readPos, this`sent, this`isPlaying
      ensures Valid()
      ensures forall o :: o in Tracks() ==> o in old(Tracks()) || fresh(o)
      ensures r.Finished? || r.Stalled?
      ensures old(readPos) <= readPos
      ensures sent == old(sent) + stream[old(readPos)..readPos]
      ensures r.Finished? ==> !isPlaying
      ensures r.Finished? && r.streamEnded ==> readPos == |stream|
      ensures r.Finished? && !r.streamEnded ==> !stopTrack && !pause
      ensures r.Stalled? ==> isPlaying && pause && !stopTrack
      ensures prev == old(prev) || exists k :: 0 <= k < |schedule| && schedule[k].Prev?
    {
      var k := 0;
      while true
        invariant Valid() && isPlaying
        invariant 0 <= k <= |schedule|
        invariant old(readPos) <= readPos
        invariant sent == old(sent) + stream[old(readPos)..readPos]
        invariant forall o :: o in Tracks() ==> o in old(Tracks()) || fresh(o)
        invariant prev == old(prev) || exists j :: 0 <= j < k && schedule[j].Prev?
        decreases |schedule| - k, |stream| - readPos
      {
        if k < |schedule| {
          Apply(schedule[k], io);
          k := k + 1;
        } else if pause && !stopTrack {
          return Stalled;
        }
        var wasStop := stopTrack;
        var before := readPos;
        var exit := FrameStep();
        if exit {
          isPlaying := false;
          return Finished(!wasStop);
        }
        if readPos != before {
          assert stream[old(readPos)..readPos] == stream[old(readPos)..before] + [stream[before]];
        }
      }
    }

    /** `StartCurrentTrackPlayback`: the set-up, then the frame loop. `IsPlaying`
        holds exactly while the loop runs, except that an index outside the
        playlist throws with it still set. */
    method PlayTrack(io: TrackData.Io, schedule: seq<Command>) returns (r: TrackOutcome)
      requires Valid()
      requires forall k :: 0 <= k < |schedule| ==> (schedule[k].SetPos? || schedule[k].Remove? ==>
                 MinInt32 <= schedule[k].number <= MaxInt32)
      modifies this, Tracks()
      ensures Valid()
      ensures hostBound == old(hostBound) && playbackChannel == old(playbackChannel) && voiceJoined == old(voiceJoined)
      ensures forall o :: o in Tracks() ==> o in old(Tracks()) || fresh(o)
      ensures r == TrackNotStarted ==> isPlaying == old(isPlaying) && sent == old(sent)
      ensures r == TrackIndexFault <==>
                !old(isPlaying) && playbackChannel.Some? && voiceJoined && !(0 <= old(trackIndex) < |old(playlist)|)
      ensures r == TrackIndexFault ==> isPlaying && sent == old(sent)
      ensures r.Finished? || r.Stalled? ==>
                !old(isPlaying) && 0 <= old(trackIndex) < |old(playlist)| &&
                sent == old(sent) + stream[..readPos]
      ensures r.Finished? ==> !isPlaying
      ensures r.Finished? && r.streamEnded ==> readPos == |stream|
      ensures r.Finished? && !r.streamEnded ==> !stopTrack && !pause
      ensures r.Stalled? ==> isPlaying && pause && !stopTrack
      ensures !r.TrackNotStarted? ==> prev == old(prev) || exists k :: 0 <= k < |schedule| && schedule[k].Prev?
    {
      var b := BeginTrack(io);
      if b == NotStarted {
        return TrackNotStarted;
      }
      if b == IndexFault {
        return TrackIndexFault;
      }
      r := RunFrames(io, schedule);
    }

    /** The index adjustment after each track (AudioStreamModule.cs:176-182):
        exactly one of going back, going forward or staying. */
    method AdvanceIndex()
      modifies this`prev, this`trackIndex
      ensures !prev
      ensures trackIndex == NextTrackIndex(old(prev), skipTo, old(trackIndex), |playlist|)
    {
      if prev {
        prev := false;
        SetTrackIndex(trackIndex - 1);
      } else if !skipTo {
        SetTrackIndex(trackIndex + 1);
      }
    }

    /** `StartPlaylist`: the checks before joining voice, then the playlist loop.
        `rounds[j]` is the command schedule while the j-th track plays; the model
        stops observing when the rounds run out. */
    method StartPlaylist(io: TrackData.Io, joinSucceeds: bool, rounds: seq<seq<Command>>) returns (r: PlaylistOutcome)
      requires Valid()
      requires forall j, k :: 0 <= j < |rounds| && 0 <= k < |rounds[j]| ==>
                 (rounds[j][k].SetPos? || rounds[j][k].Remove? ==> MinInt32 <= rounds[j][k].number <= MaxInt32)
      modifies this, Tracks()
      ensures Valid()
      ensures old(sent) <= sent
      ensures old(isPlaying) ==> r == AlreadyPlaying && notices == old(notices) && playlist == old(playlist)
      ensures !old(isPlaying) && old(playlist) == [] ==> r == Refused(NoTracks) && notices == old(notices) + [NoTracks]
      ensures !old(isPlaying) && old(playlist) != [] && playbackChannel.None? ==>
                r == Refused(PlaybackChannelNotSet) && notices == old(notices) + [PlaybackChannelNotSet]
      ensures !old(isPlaying) && old(playlist) != [] && playbackChannel.Some? && !playbackChannel.value.isVoice ==>
                r == Refused(NotVoiceChannel) && notices == old(notices) + [NotVoiceChannel]
      ensures !old(isPlaying) && old(playlist) != [] && playbackChannel.Some? && playbackChannel.value.isVoice &&
              !playbackChannel.value.botCanSpeak ==>
                r == Refused(NoSpeakPermission(playbackChannel.value.name)) &&
                notices == old(notices) + [NoSpeakPermission(playbackChannel.value.name)]
      ensures r.Refused? || r == AlreadyPlaying ==>
                sent == old(sent) && isPlaying == old(isPlaying) && playlist == old(playlist) &&
                trackIndex == old(trackIndex) && voiceJoined == old(voiceJoined) &&
                stopTrack == old(stopTrack) && stopPlaylist == old(stopPlaylist) && pause == old(pause) &&
                prev == old(prev) && skipTo == old(skipTo) && skipTime == old(skipTime)
      ensures r == JoinFailed <==>
                !old(isPlaying) && old(playlist) != [] && playbackChannel.Some? && playbackChannel.value.isVoice &&
                playbackChannel.value.botCanSpeak && !joinSucceeds
      ensures r == JoinFailed ==> !voiceJoined
      ensures r == StoppedByFlag ==> !stopPlaylist && !voiceJoined && !isPlaying
      ensures r == Emptied ==> playlist == [] && voiceJoined && !isPlaying && |notices| > 0 && notices[|notices| - 1] == NoTracks
      ensures r == Faulted ==> isPlaying
    {
      if isPlaying {
        return AlreadyPlaying;
      }
      if playlist == [] {
        notices := notices + [NoTracks];
        return Refused(NoTracks);
      }
      if playbackChannel.None? {
        notices := notices + [PlaybackChannelNotSet];
        return Refused(PlaybackChannelNotSet);
      }
      var channel := playbackChannel.value;
      if !channel.isVoice {
        notices := notices + [NotVoiceChannel];
        return Refused(NotVoiceChannel);
      }
      if !channel.botCanSpeak {
        notices := notices + [NoSpeakPermission(channel.name)];
        return Refused(NoSpeakPermission(channel.name));
      }
      voiceJoined := joinSucceeds;
      if !voiceJoined {
        return JoinFailed;
      }
      var j := 0;
      while true
        invariant Valid() && !isPlaying && voiceJoined && playbackChannel == old(playbackChannel)
        invariant 0 <= j <= |rounds|
        invariant old(sent) <= sent
        invariant forall o :: o in Tracks() ==> o in old(Tracks()) || fresh(o)
        decreases |rounds| - j
      {
        if stopPlaylist {
          stopPlaylist := false;
          break;
        }
        if playlist == [] {
          notices := notices + [NoTracks];
          return Emptied;
        }
        if j == |rounds| {
          return Suspended;
        }
        var t := PlayTrack(io, rounds[j]);
        j := j + 1;
        if t == Stalled {
          return Suspended;
        }
        if t == TrackIndexFault {
          return Faulted;
        }
        AdvanceIndex();
      }
      voiceJoined := false;
      return StoppedByFlag;
    }
  }
}
