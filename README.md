# Stormbot core, modelled in Dafny

Stormbot is a Discord bot. This project models the parts of it that hold
logic of their own, and proves what they promise:

- the per-server **audio playback session** (`AudioStreamModule.AudioState`):
  a playlist, a cursor whose setter wraps out-of-range values, the control
  flags the chat commands flip (stop track, stop playlist, pause, previous,
  skip-to and its pending seek time), the playlist loop and the per-track
  frame loop that consume those flags, and the server-to-session registry;
- **track resolution** (`TrackData`): a local-file check, then the first of
  the fixed resolvers YouTube, SoundCloud and Livestreamer that accepts the
  input; where the stream comes from; how the duration probe's output sets
  the track length;
- **module-enable bookkeeping** (`ModulesModule`): the saved server and
  channel tables, module lookup and validation, the enable and disable
  commands, and the re-enabling pass after loading;
- **announcements** (`AnnouncementModule`): keyword substitution in join and
  leave messages, the join/leave callback tables and their commands, and the
  auto-role table;
- the **small validators and normalisers**: `DiscordUtils.ToHex`, the
  normalising constructors of the dynamic-permission records, the pastebin
  raw-URL rewrite, `Nullcheck`, the "yes"/"y" confirmation of `dynperm clear`
  and when `dynperm show` pastes again.

One Dafny module per source file: `DiscordUtils` (utils.dfy), `TrackData`
(track_data.dfy), `Audio` (audio_state.dfy), `AudioRegistry`
(audio_registry.dfy), `Modules` (modules_module.dfy), `Announcement`
(announcement.dfy), `DynPermData` (dynperm_data.dfy) and `DynPerm`
(dynperm_module.dfy), over two shared modules: `Wrappers` (`Option`, first
match in a sequence) and `Text` (the .NET string operations the bot relies
on: invariant case mapping, `String.Replace`, `IndexOf`, the white space and
digits that number parsing accepts).

Objects the source updates in place are classes (`AudioState`, `TrackData`,
the saved tables, `UserEventCallback`, the announcement tables); records the
source only builds are datatypes. Everything outside the bot's own code is a
parameter: the file system, the resolvers, the duration probe and the decoder
are the functions of a `TrackData.Io` value; the voice client is the
append-only `sent` log; chat messages are the append-only `notices` log or a
returned reply or action list; role, channel and server lookups and what the
command library's module manager answers are arguments. Concurrent command
handlers are modelled by interleaving: while a track plays, one scheduled
command runs before each pass of the frame loop.

Four behaviours of the code that are easy to miss, and that the model keeps:

- `remove` leaves the cursor where it was, so it can point past the end;
- `clear` empties the playlist and sets only the stop-playlist flag; the
  track that is playing goes on until it ends;
- `GetStream` never stores the resolver it finds; only `Parse` does, and a
  track loaded from disk has none;
- a track started with a dangling cursor throws after `IsPlaying` was set,
  which stays set.

The index reset in `PrintCurrentTrack` never runs as written (see Findings).
`AudioState.PrintCurrentTrackAsWritten` models the code as written; the
model's `PrintCurrentTrack`, which `Apply`'s `current` and the start of a
track call, is the corrected one that reports and resets the cursor.

## Model

| member | source | states |
|---|---|---|
| DiscordUtils.ToHex | Bot.Core/Utils.cs:11-23 | returns false with 0 exactly when the input is longer than six characters; throws exactly when a shorter input, upper-cased, is not hexadecimal digits with optional surrounding white space; a success is at most 0xFFFFFF |
| DiscordUtils.ToHexIgnoresCase | Bot.Core/Utils.cs:13 | inputs equal after upper-casing have the same outcome |
| DiscordUtils.AtMostSixHexDigits | Bot.Core/Utils.cs:15-22 | a value of at most six hexadecimal digits is at most 0xFFFFFF |
| DiscordUtils.ToHexOfUpperDigits | Bot.Core/Utils.cs:13-22 | one to six hexadecimal digits, in upper or lower case, are read as their value |
| DiscordUtils.ToHexReadsSixDigits | Bot.Core/Utils.cs:11-23 | every colour up to 0xFFFFFF written as six hexadecimal digits, in either case, is read back as itself |
| DiscordUtils.ToHexOfPaddedDigits | Bot.Core/Utils.cs:13-22 | one to six upper-case hexadecimal digits with white space before and after, six characters at most in all, are read as their value |
| TrackData.FirstResolver | Bot.Core/Modules/Audio/TrackData.cs:16-21 | the chosen resolver accepts the input and every resolver before it in the order YouTube, SoundCloud, Livestreamer rejects it; none is chosen exactly when none accepts |
| TrackData.StreamSource | Bot.Core/Modules/Audio/TrackData.cs:44-65 | no url exactly when no resolver accepts, none is cached and no file exists; otherwise an accepting resolver's url, else the cached resolver's, else the location itself |
| TrackData.Parse | Bot.Core/Modules/Audio/TrackData.cs:67-78 | null exactly when the input is neither an existing file nor accepted by a resolver; an existing file gives its file name and no cached resolver; otherwise the first accepting resolver is cached and names the track; the location is the input |
| TrackData.Track.constructor | Bot.Core/Modules/Audio/TrackData.cs:38-42 | location and name as given, length zero, no cached resolver |
| TrackData.Track.Restore | Bot.Core/Modules/Audio/TrackData.cs:30-36 | location, length and name as stored, no cached resolver |
| TrackData.Track.GetStream | Bot.Core/Modules/Audio/TrackData.cs:44-65 | the url is the last assignment: an accepting resolver beats the cached resolver, which beats an existing file; the length is probed only while it is zero and is otherwise unchanged |
| TrackData.Track.GetLength | Bot.Core/Modules/Audio/TrackData.cs:79-120 | the new length is the probe's lines applied in order to the old one, stopping at the first line whose handler throws |
| TrackData.ParseProbeLine | Bot.Core/Modules/Audio/TrackData.cs:99-105 | a null, empty or "N/A" line is skipped; any other line without a '.' throws; a value read is within the 32-bit range |
| TrackData.ApplyProbe | Bot.Core/Modules/Audio/TrackData.cs:79-120 | the run faults exactly when some line's handler throws, and the length afterwards is the starting one or the duration some line gave, in ticks |
| TrackData.ParseInt32 | Bot.Core/Modules/Audio/TrackData.cs:103-105 | a parsed value lies in the 32-bit range and the text held a digit |
| TrackData.ParseInt32OfDigits | Bot.Core/Modules/Audio/TrackData.cs:103-105 | a run of decimal digits within the 32-bit range reads as its value |
| TrackData.ProbeLineTruncates | Bot.Core/Modules/Audio/TrackData.cs:99-105 | "whole.fraction" reads as the whole seconds, the fraction dropped |
| TrackData.ProbeOfSkipsKeepsLength | Bot.Core/Modules/Audio/TrackData.cs:99-100 | null, empty and "N/A" lines leave the length as it was |
| TrackData.ProbeOfOneDuration | Bot.Core/Modules/Audio/TrackData.cs:97-106 | one duration line among skipped lines sets the length to its whole seconds, in ticks |
| Audio.ClampIndex | Bot.Core/Modules/Audio/AudioStreamModule.cs:34-41 | on a non-empty playlist the cursor lands in range: negatives go to the last track, values at or past the end to the first, in-range values are kept |
| Audio.ClampedStepsWrap | Bot.Core/Modules/Audio/AudioStreamModule.cs:176-182 | from a valid position, one step forward or back wraps modulo the playlist length |
| Audio.ClampIsNotModulo | Bot.Core/Modules/Audio/AudioStreamModule.cs:37-38 | a value past the end restarts at 0 rather than being reduced modulo the length |
| Audio.PauseFlag | Bot.Core/Modules/Audio/AudioStreamModule.cs:272-278 | with no value the flag toggles, otherwise it takes the value |
| Audio.ToggleTwiceRestores | Bot.Core/Modules/Audio/AudioStreamModule.cs:274-277 | two toggles restore the pause flag |
| Audio.PositionOf | Bot.Core/Modules/Audio/AudioStreamModule.cs:476 | the one-based number minus one in unchecked 32-bit arithmetic stays in range and is one less except at the minimum |
| Audio.PrintOutcomesDifferOnDanglingCursor | Bot.Core/Modules/Audio/AudioStreamModule.cs:309-327 | for every cursor and playlist length, the code as written and the intended handler agree exactly when the cursor is in range, where both print the track |
| Audio.PrintOutcomeIntended | Bot.Core/Modules/Audio/AudioStreamModule.cs:320-326 | as intended, a cursor outside the playlist is reported and reset, and nothing escapes |
| Audio.DanglingIndexEscapesReset | Bot.Core/Modules/Audio/AudioStreamModule.cs:320 | a one-track playlist with the cursor at 1 escapes as written and is reset as intended |
| Audio.NextTrackIndex | Bot.Core/Modules/Audio/AudioStreamModule.cs:176-182 | after a track the cursor goes back one when the previous flag was set, stays after a skip and goes forward one otherwise, each through the setter |
| Audio.NextTrackIndexWraps | Bot.Core/Modules/Audio/AudioStreamModule.cs:176-182 | from a valid position the next cursor is the previous or next track modulo the length, or the same one, and always in range |
| Audio.AudioState.constructor | Bot.Core/Modules/Audio/AudioStreamModule.cs:101-105 | a new session is bound to its server, has an empty playlist, cursor 0, every flag clear and is not playing |
| Audio.AudioState.Restore | Bot.Core/Modules/Audio/AudioStreamModule.cs:92-99 | a loaded session is unbound, keeps its playlist and channel id, and its stored cursor goes through the setter |
| Audio.AudioState.FinishLoading | Bot.Core/Modules/Audio/AudioStreamModule.cs:107-119 | throws on an already bound session; otherwise reports whether the server still exists and binds it if so |
| Audio.AudioState.SetTrackIndex | Bot.Core/Modules/Audio/AudioStreamModule.cs:34-42 | the cursor becomes the clamped value |
| Audio.AudioState.SetPlaybackChannel | Bot.Core/Modules/Audio/AudioStreamModule.cs:59-66 | the channel is stored; its id is recorded, and a null channel throws leaving the old id |
| Audio.AudioState.ChannelCommand | Bot.Core/Modules/Audio/AudioStreamModule.cs:422-438 | the playback channel is replaced and announced unless it is null |
| Audio.AudioState.ClearPlaylist | Bot.Core/Modules/Audio/AudioStreamModule.cs:121-125 | the playlist is empty and only the stop-playlist flag is set |
| Audio.AudioState.StopPlaylist | Bot.Core/Modules/Audio/AudioStreamModule.cs:127-131 | both stop flags are set |
| Audio.AudioState.StopPlayback | Bot.Core/Modules/Audio/AudioStreamModule.cs:260-264 | stop-track is set and pause cleared |
| Audio.AudioState.Pause | Bot.Core/Modules/Audio/AudioStreamModule.cs:272-278 | the pause flag follows PauseFlag |
| Audio.AudioState.SkipToTimeInTrack | Bot.Core/Modules/Audio/AudioStreamModule.cs:280-290 | nothing changes when not playing or when the time is not before the track's end; otherwise stop-track and skip-to are set, pause cleared and the time recorded; a dangling cursor throws |
| Audio.AudioState.SkipToTrack | Bot.Core/Modules/Audio/AudioStreamModule.cs:292-301 | nothing changes when not playing; otherwise stop-track and skip-to are set, pause cleared and the cursor set through the setter |
| Audio.AudioState.Previous | Bot.Core/Modules/Audio/AudioStreamModule.cs:303-307 | the previous flag is set and playback stopped, without checking that anything plays |
| Audio.AudioState.PrintCurrentTrack | Bot.Core/Modules/Audio/AudioStreamModule.cs:309-327 | the current track is announced; a cursor outside the playlist is reported and reset to 0 |
| Audio.AudioState.PrintCurrentTrackAsWritten | Bot.Core/Modules/Audio/AudioStreamModule.cs:309-327 | as written: the exception escapes exactly when the cursor is outside the playlist, leaving cursor and notices as they were; otherwise the current track is announced |
| Audio.AudioState.AddCommand | Bot.Core/Modules/Audio/AudioStreamModule.cs:443-459 | a parsable location appends a new track with that location and announces it; otherwise the failure is announced and the playlist kept; the cursor is not touched |
| Audio.AudioState.SetPosCommand | Bot.Core/Modules/Audio/AudioStreamModule.cs:461-465 | skips to the track numbered from 1, through the setter, only while playing; when not playing the cursor, stop-track, pause and skip-to are unchanged |
| Audio.AudioState.RemoveCommand | Bot.Core/Modules/Audio/AudioStreamModule.cs:467-481 | removes exactly the numbered track and announces it, or throws with nothing changed when the number is out of range; the cursor is not touched |
| Audio.AudioState.ListCommand | Bot.Core/Modules/Audio/AudioStreamModule.cs:482-504 | an empty playlist says so; otherwise one entry per track in order, numbered from 1, marked playing only at the cursor while playing |
| Audio.AudioState.Apply | Bot.Core/Modules/Audio/AudioStreamModule.cs:342-376 | each command arriving during playback has its effect: toggle flips pause; stop sets both stop flags; next and prev stop the track, prev also setting its flag; goto and setpos seek only while playing; clear empties the playlist and lets the track play on; add appends or reports failure; remove takes out the numbered track or changes nothing; current prints through the corrected handler; the cursor moves only under setpos and current |
| Audio.AudioState.FrameStep | Bot.Core/Modules/Audio/AudioStreamModule.cs:239-255 | stop-track clears both stop and pause and exits; while paused nothing is read; otherwise the next decoded frame is sent, or the loop exits at the end of the stream |
| Audio.AudioState.BeginTrack | Bot.Core/Modules/Audio/AudioStreamModule.cs:199-237 | refuses when already playing, without a channel or without a voice client; otherwise sets IsPlaying, then either throws on a dangling cursor or opens the current track's stream |
| Audio.AudioState.OpenStream | Bot.Core/Modules/Audio/AudioStreamModule.cs:218-230 | the current track's stream is decoded from the pending seek time, which is consumed, or from the start after the track is announced; the cursor stays |
| Audio.AudioState.RunFrames | Bot.Core/Modules/Audio/AudioStreamModule.cs:239-257 | what is sent is exactly the next decoded frames in order; IsPlaying is cleared when the loop ends; a loop that stays paused with no command left is still playing |
| Audio.AudioState.PlayTrack | Bot.Core/Modules/Audio/AudioStreamModule.cs:199-258 | the whole track playback: what is sent is a prefix of the decoded stream, and IsPlaying holds exactly while frames are handled, except after the dangling-cursor throw |
| Audio.AudioState.AdvanceIndex | Bot.Core/Modules/Audio/AudioStreamModule.cs:176-182 | exactly one cursor adjustment per track, as NextTrackIndex, and the previous flag is cleared |
| Audio.AudioState.StartPlaylist | Bot.Core/Modules/Audio/AudioStreamModule.cs:133-187 | a no-op while playing; refuses with its message on an empty playlist, a missing, non-voice or speechless channel, and both leave the playlist, the cursor, every flag and the voice connection as they were; the loop exits on the stop-playlist flag, clearing it and leaving voice, or on an emptied playlist; nothing sent is ever taken back |
| AudioRegistry.AudioStreamModule.GetAudio | Bot.Core/Modules/Audio/AudioStreamModule.cs:512-521 | returns the server's session, creating it only when missing; an existing session changes only its chat channel; every other server keeps its session and that session's chat channel |
| AudioRegistry.AudioStreamModule.OnDataLoad | Bot.Core/Modules/Audio/AudioStreamModule.cs:523-537 | removes exactly the sessions whose server no longer exists and binds the rest; a session already bound throws |
| Modules.GetModule | Bot.Core/Modules/ModulesModule.cs:200-204 | the first module whose id equals the lower-cased query, or none exactly when no id equals it |
| Modules.GetModuleIgnoresCase | Bot.Core/Modules/ModulesModule.cs:202 | queries differing in letter case find the same module |
| Modules.IsGlobal | Bot.Core/Modules/ModulesModule.cs:177-178 | a global module carries neither whitelist flag |
| Modules.WithoutWhitelistIsGlobal | Bot.Core/Modules/ModulesModule.cs:177-178 | a filter with neither whitelist flag is global |
| Modules.VerifyFindModule | Bot.Core/Modules/ModulesModule.cs:169-184 | unknown exactly when no id matches; a module whose filter is None or AlwaysAllowPrivate is refused as global; a module returned carries a whitelist flag |
| Modules.WithModule | Bot.Core/Modules/ModulesModule.cs:209-215 | the id's set gains the module, a missing id gets a one-element set, every other entry is unchanged |
| Modules.WithoutModule | Bot.Core/Modules/ModulesModule.cs:217-221 | an absent id is a no-op; otherwise only the module leaves the id's set and the id stays |
| Modules.AddModuleIdempotent | Bot.Core/Modules/ModulesModule.cs:212-214 | adding twice equals adding once |
| Modules.AddThenDeleteKeepsEmptyEntry | Bot.Core/Modules/ModulesModule.cs:217-221 | removing what was just added to a new id leaves that id with an empty set |
| Modules.DeleteAbsentModule | Bot.Core/Modules/ModulesModule.cs:217-221 | removing a module the id does not list changes nothing |
| Modules.SaveTable.AddModuleToSave | Bot.Core/Modules/ModulesModule.cs:209-215 | the table becomes WithModule of the old table |
| Modules.SaveTable.DeleteModuleFromSave | Bot.Core/Modules/ModulesModule.cs:217-221 | the table becomes WithoutModule of the old table |
| Modules.ModulesModule.ChannelEnable | Bot.Core/Modules/ModulesModule.cs:41-65 | the save gains the module only when it is found, not global, carries ChannelWhitelist and EnableChannel returned true; the reply names which check stopped it |
| Modules.ModulesModule.ChannelDisable | Bot.Core/Modules/ModulesModule.cs:68-92 | as written: for a found module with ChannelWhitelist, the reply is "not enabled" exactly when the module IS enabled on the channel, and it is enabled there afterwards in every case; the save loses the module only on the "disabled" reply |
| Modules.EnableChannelCall | Bot.Core/Modules/ModulesModule.cs:56 | the module manager's EnableChannel adds the channel and returns true exactly when it was not enabled |
| Modules.DisableChannelCall | Bot.Core/Modules/ModulesModule.cs:84 | DisableChannel, the call the disable command evidently means, removes the channel and returns true exactly when it was enabled |
| Modules.ChannelDisableAsWrittenInverts | Bot.Core/Modules/ModulesModule.cs:84-91 | the call made as written returns the opposite of the intended one on every input and leaves the channel enabled |
| Modules.ChannelDisableCounterexample | Bot.Core/Modules/ModulesModule.cs:84-91 | a module enabled on channel 7 is reported as not enabled and stays enabled, where DisableChannel would disable it |
| Modules.ModulesModule.ChannelDisableIntended | Bot.Core/Modules/ModulesModule.cs:68-92 | corrected: for a found module with ChannelWhitelist, the reply is "disabled" exactly when the module was enabled on the channel, and it is not enabled there afterwards; the save loses the module only on that reply |
| Modules.ModulesModule.ServerEnable | Bot.Core/Modules/ModulesModule.cs:95-120 | the save gains the module only when it is found, not global, carries ServerWhitelist and EnableServer returned true |
| Modules.ModulesModule.ServerDisable | Bot.Core/Modules/ModulesModule.cs:122-146 | the save loses the module only when it is found, not global, carries ServerWhitelist and DisableServer returned true |
| Modules.ModulesModule.ReEnableCalls | Bot.Core/Modules/ModulesModule.cs:188-197 | exactly the saved ids and names that resolve to a module carrying the flag are re-enabled |
| Modules.ReEnables | Bot.Core/Modules/ModulesModule.cs:188-197 | a saved name is re-enabled under a flag exactly when the first module whose id is the lower-cased name carries that flag |
| Modules.ModulesModule.OnDataLoad | Bot.Core/Modules/ModulesModule.cs:186-198 | servers are re-enabled only for modules with ServerWhitelist and channels only for modules with ChannelWhitelist |
| Announcement.DefaultMessageRendering | Bot.Core/Modules/AnnouncementModule.cs:59 | the default message renders as "<user> has joined <place>!" for a user name without '&#124;' |
| Announcement.ParseString | Bot.Core/Modules/AnnouncementModule.cs:354-355 | a message without '&#124;' holds no keyword and is returned unchanged |
| Announcement.ParseStringUserNameStep | Bot.Core/Modules/AnnouncementModule.cs:354-355 | for every message, a user-name keyword after plain text becomes the user name and rendering goes on after it |
| Announcement.ParseStringLocationStep | Bot.Core/Modules/AnnouncementModule.cs:354-355 | for every message, a location keyword between plain texts becomes the location name |
| Announcement.LocationKeywordSurvivesUserPass | Bot.Core/Modules/AnnouncementModule.cs:355 | the user-name pass leaves a location keyword in place for the second pass |
| Announcement.ParseStringUserThenLocation | Bot.Core/Modules/AnnouncementModule.cs:354-355 | for every message of the shape user-name keyword, plain words, location keyword, plain words, the rendering is the user name, the words, the place and the words |
| Text.ReplaceAll | Bot.Core/Modules/AnnouncementModule.cs:355 | String.Replace leaves a text unchanged when it is shorter than the pattern, does not contain the pattern's first character, or the replacement is the pattern |
| Announcement.ParseStringPlainStep | Bot.Core/Modules/AnnouncementModule.cs:354-355 | for every message, plain text without '&#124;' at the front is kept and rendering goes on after it |
| Announcement.UserPassOverLocationKeyword | Bot.Core/Modules/AnnouncementModule.cs:354 | the user-name pass copies a location keyword and goes on after it, unless "userName&#124;" follows it |
| Announcement.ParseStringUserNameFront | Bot.Core/Modules/AnnouncementModule.cs:354-355 | for every message, a user-name keyword at the front becomes the user name and rendering goes on after it |
| Announcement.ParseStringLocationFront | Bot.Core/Modules/AnnouncementModule.cs:354-355 | for every message, a location keyword at the front becomes the place and rendering goes on after it, unless "userName&#124;" follows it |
| Announcement.ParseStringLocationChain | Bot.Core/Modules/AnnouncementModule.cs:354-355 | for every message, a location keyword after plain text becomes the place and rendering goes on after it, unless "userName&#124;" follows it |
| Announcement.LocationKeywordLosesItsBar | Bot.Core/Modules/AnnouncementModule.cs:354-355 | the excluded case: "&#124;location&#124;userName&#124;" renders as "&#124;location" and the user name, since the user-name pass takes the location keyword's closing '&#124;' |
| Announcement.ParseStringPieceStep | Bot.Core/Modules/AnnouncementModule.cs:354-355 | plain text, a user-name keyword or a location keyword at the front renders as its author means and rendering goes on after it |
| Announcement.ParseStringRendersPieces | Bot.Core/Modules/AnnouncementModule.cs:354-355 | every message made of plain text without '&#124;' and the two keywords, in any number and order, renders with each keyword filled in, when the user name holds no '&#124;' and no location keyword is followed by "userName&#124;" |
| Announcement.SubstitutionIsSequential | Bot.Core/Modules/AnnouncementModule.cs:354-355 | the location keyword is substituted after the user name, so a user name holding it is replaced too |
| Announcement.FindTextChannel | Bot.Core/Modules/AnnouncementModule.cs:157-159 | the first text channel whose lower-cased name equals the lower-cased query, or none exactly when no name matches |
| Announcement.UserEventCallback.constructor | Bot.Core/Modules/AnnouncementModule.cs:46-49 | a new callback has the channel and its id, the message, and is enabled |
| Announcement.UserEventCallback.Restore | Bot.Core/Modules/AnnouncementModule.cs:38-44 | a loaded callback has its stored id, message and enabled flag and no channel object yet |
| Announcement.UserEventCallback.SetChannel | Bot.Core/Modules/AnnouncementModule.cs:19-27 | setting the channel also records its id |
| Announcement.CallbackExists | Bot.Core/Modules/AnnouncementModule.cs:135-141 | the "exists" group runs only for a server that has a callback entry, and only when it is enabled |
| Announcement.CallbackMissing | Bot.Core/Modules/AnnouncementModule.cs:184-190 | the "doesn't exist" group check holds exactly when the "exists" check fails |
| Announcement.AnnouncementModule.Enable | Bot.Core/Modules/AnnouncementModule.cs:192-199 | runs only when no enabled callback exists; an existing entry is only re-enabled, keeping message and channel; otherwise a new enabled entry with the default message and the command's channel is added; the other table is untouched; only enabled flags are writable, and every other server's callback, in both tables, keeps its flag; no callback object is shared between entries |
| Announcement.AnnouncementModule.Destroy | Bot.Core/Modules/AnnouncementModule.cs:171-178 | runs only when an enabled callback exists and disables it, keeping the entry; only enabled flags are writable, and every other server's callback, in both tables, keeps its flag; no callback object is shared between entries |
| Announcement.AnnouncementModule.SetMessage | Bot.Core/Modules/AnnouncementModule.cs:144-152 | runs only when an enabled callback exists and replaces its message; only messages are writable, and every other server's callback, in both tables, keeps its message; no callback object is shared between entries |
| Announcement.AnnouncementModule.SetChannel | Bot.Core/Modules/AnnouncementModule.cs:153-169 | runs only when an enabled callback exists; a matching text channel becomes the callback channel and its id is recorded, otherwise nothing changes; only the channel and its id are writable, and every other server's callback, in both tables, keeps both; no callback object is shared between entries |
| Announcement.AnnouncementModule.CreateAutoRole | Bot.Core/Modules/AnnouncementModule.cs:79-95 | runs only when the server has no auto role and adds the role found; a role not found changes nothing |
| Announcement.AnnouncementModule.ChangeAutoRole | Bot.Core/Modules/AnnouncementModule.cs:109-125 | runs only when the server has an auto role and overwrites it with the role found |
| Announcement.AnnouncementModule.RemoveAutoRoleAssigner | Bot.Core/Modules/AnnouncementModule.cs:326-333 | the server's auto role entry is gone and nothing else changes |
| Announcement.AnnouncementModule.AnnouncementFor | Bot.Core/Modules/AnnouncementModule.cs:288-293 | an announcement is made exactly when the server's callback exists and is enabled, with its message rendered for the user and server |
| Announcement.AnnouncementModule.OnUserJoined | Bot.Core/Modules/AnnouncementModule.cs:285-313 | nothing happens on a server where the module is off; otherwise the join announcement, then the stored role is given, or, when it no longer exists, the entry is removed and reported in the first text channel |
| Announcement.AnnouncementModule.OnUserLeft | Bot.Core/Modules/AnnouncementModule.cs:315-323 | nothing happens on a server where the module is off; otherwise at most the leave announcement |
| DynPermData.DedupIgnoreCase | Bot.Core/DynPerm/JsonData.cs:85 | the copy keeps only input elements, one for every input element up to case, and no two equal ignoring case |
| DynPermData.DedupOfDistinct | Bot.Core/DynPerm/JsonData.cs:85 | elements already distinct ignoring case are all kept, in order |
| DynPermData.NormalizeSet | Bot.Core/DynPerm/JsonData.cs:78-88 | the result compares ignoring case and holds no two equal elements; null gives an empty set; a set already ignoring case is kept as is; another set keeps the same elements up to case |
| DynPermData.NormalizeSetIdempotent | Bot.Core/DynPerm/JsonData.cs:84-88 | normalising twice is normalising once |
| DynPermData.NormalizeSetKeepsDistinct | Bot.Core/DynPerm/JsonData.cs:84-85 | an ordinal set without case duplicates is copied as it is |
| DynPermData.NormalizeSetCollapsesCase | Bot.Core/DynPerm/JsonData.cs:84-85 | "Audio" and "audio" in an ordinal set collapse to "Audio" |
| DynPermData.NewModuleCommandPair | Bot.Core/DynPerm/JsonData.cs:76-92 | after construction both sets exist and compare ignoring case; null sets are empty |
| DynPermData.EmptyPair | Bot.Core/DynPerm/JsonData.cs:94-97 | the default pair holds two empty case-insensitive sets |
| DynPermData.NewModuleCommandPairIdempotent | Bot.Core/DynPerm/JsonData.cs:76-92 | a pair that came out of the constructor passes through it unchanged |
| DynPermData.NewBlock | Bot.Core/DynPerm/JsonData.cs:48-59 | the id is kept and a null allow or deny becomes a fresh empty pair |
| DynPermData.BlockFor | Bot.Core/DynPerm/JsonData.cs:61-63 | a new block allows and denies nothing |
| DynPermData.NewPerms | Bot.Core/DynPerm/JsonData.cs:18-28 | null role or user lists become empty, non-null lists are kept |
| DynPermData.EmptyPerms | Bot.Core/DynPerm/JsonData.cs:30-32 | the default permissions have two empty lists |
| DynPerm.SetSource | Bot.Core/DynPerm/DynamicPermissionModule.cs:45-49 | a link starting with "http://pastebin.com/" gets "raw/" right after that prefix, the rest preserved, and is downloaded; any other input is used unchanged |
| DynPerm.RawUrlRoundTrip | Bot.Core/DynPerm/DynamicPermissionModule.cs:47 | taking "raw/" back out of the rewritten link gives the pasted link |
| DynPerm.Nullcheck | Bot.Core/DynPerm/DynamicPermissionModule.cs:118-122 | throws exactly when some argument is null or empty |
| DynPerm.ClearConfirmedMeans | Bot.Core/DynPerm/DynamicPermissionModule.cs:99-101 | exactly the case variants of "y" and "yes" confirm |
| DynPerm.ClearConfirmed | Bot.Core/DynPerm/DynamicPermissionModule.cs:99-101 | only an answer of one or three characters starting with y or Y confirms |
| DynPerm.Clear | Bot.Core/DynPerm/DynamicPermissionModule.cs:99-105 | a confirmed clear removes exactly the server's permissions; anything else changes nothing |
| DynPerm.NeedsRepaste | Bot.Core/DynPerm/DynamicPermissionModule.cs:75 | dirty data is always pasted again, and clean data with a URL never is |
| DynPerm.Show | Bot.Core/DynPerm/DynamicPermissionModule.cs:75-90 | pastes again exactly when the stored URL is empty or the data is dirty, otherwise reuses the URL; replies with the URL held afterwards |
| DynPerm.ShowIsStableWhenClean | Bot.Core/DynPerm/DynamicPermissionModule.cs:75-90 | once clean data has a URL, later shows keep giving it |
| DynPerm.ShowRepastesWhileDirty | Bot.Core/DynPerm/DynamicPermissionModule.cs:75 | dirty data is pasted again on every show |

## Left out

- `ForceStop` (AudioStreamModule.cs:266-270): it disconnects the voice client, which is Discord I/O; its only state effect, clearing `IsPlaying`, races the frame loop and is not modelled.
- Joining voice, the Speak permission, the voice client's `Wait`/`Disconnect`: the join result and the permission are parameters, leaving voice is `voiceJoined := false`.
- The `start` command's voice-channel lookup by name prefix (AudioStreamModule.cs:383-421): a Discord lookup; the model starts at `StartPlaylist`.
- Starting the decoder and the wait for its output stream (AudioStreamModule.cs:218-237): the decoder's output is a given sequence of frames, with the frame size 1920 times the channel count left abstract.
- Audio.AudioState.RunFrames: a paused loop with no further command is reported as stalled instead of polling for ever; the 100 ms poll while paused and the 10 ms wait for the decoder are not modelled.
- Audio.AudioState.StartPlaylist: observed for as many tracks as command schedules are given; it then reports the loop as still running.
- Concurrency: command handlers racing the loops, `ConcurrentDictionary` thread safety and `TryAdd` races are reduced to interleaving one command between loop steps.
- TrackData.Track.GetLength: a throwing output handler ends the probe run in the model. In the source the exception is raised in the `OutputDataReceived` handler, on the process's event thread and outside GetLength's try/catch (TrackData.cs:81-119), so it most likely goes unhandled in the bot's own process; that outcome is not modelled.
- Audio.AudioState.Apply: `current` runs the corrected `PrintCurrentTrack` inside the playback loop, which changes which track plays next after a dangling cursor. With playlist [A, B, C] playing C (cursor 2), `remove 3` then `current`: the source's handler throws and keeps cursor 2, which the loop moves to 3 and wraps to 0, so A plays next; the model resets the cursor to 0 and the loop moves it to 1, so B plays next.
- The concrete resolvers, the file system, `Utils.GetFilename` and the ffprobe and ffmpeg processes are uninterpreted functions.
- `TimeSpan.Parse` of the `goto` argument and `int.Parse` of the `setpos` and `remove` arguments: commands carry the parsed value; a parse failure ends the handler before any change.
- Case mapping covers ASCII letters only; `ToUpperInvariant` and `ToLowerInvariant` on other letters, and the culture-sensitive `StartsWith` of the pastebin check, are modelled as ASCII mapping and ordinal comparison.
- Chat messages are recorded as notices, replies or actions, without their exact wording.
- JSON (de)serialisation and the data save/load machinery; the loading constructors are modelled as `Restore` constructors and normalising functions.
- The `module list` command and `dynperm set`'s parsing of the permissions text: formatting and a service that is not part of this model.
- `AnnouncementModule.LoadChannels` (AnnouncementModule.cs:348-352): a Discord lookup per saved callback; announcements name the callback channel by its id.
- The pastebin login and paste calls of `dynperm show` and the download of `dynperm set`: the URL of a new paste is a parameter and the download is the `Download` result.
- DynPerm.ShowRepastesWhileDirty: assumes that assigning `PastebinUrl` leaves `IsDirty` unchanged; `DynPermFullData` is not part of this model, so a setter that clears the dirty mark would make the second show reuse the first URL.
- DynPerm.Show: its `isDirty` clause rests on the same assumption about the `PastebinUrl` setter.
- Modules.ModulesModule.OnDataLoad: `_client.GetServer` and `_client.GetChannel` (ModulesModule.cs:191, 196) return null for a server or channel that has gone, and `EnableServer`/`EnableChannel` would then presumably throw and end the pass; the model assumes every lookup succeeds, so it re-enables every saved entry that resolves to a module.
- Modules.ModulesModule.ReEnableCalls: rests on the same assumption that every saved server and channel still exists.
- DynPerm.Clear: models `DestroyServerPerms` (DynamicPermissionModule.cs:103) as removing exactly the server's entry; the permission service that implements it is not part of this model.
- `DiscordUtils.JoinInvite` and the Terraria, Twitch, execute and info modules: network, scripting and process plumbing.

## Findings

| source | as written | input that shows it | evidently intended | confidence | as-written member | corrected member |
|---|---|---|---|---|---|---|
| Bot.Core/Modules/Audio/AudioStreamModule.cs:320 | `PrintCurrentTrack` catches `IndexOutOfRangeException`, but `List<T>`'s indexer throws `ArgumentOutOfRangeException`, so a cursor outside the playlist escapes and is never reset | while the second of two tracks plays, `remove 2` leaves one track with the cursor at 1; `current` then throws | report the bad cursor and reset it to 0 | high, not executed | Audio.AudioState.PrintCurrentTrackAsWritten, Audio.DanglingIndexEscapesReset, Audio.PrintOutcomesDifferOnDanglingCursor | Audio.AudioState.PrintCurrentTrack, Audio.PrintOutcomeIntended |
| Bot.Core/Modules/ModulesModule.cs:84 | `module channel disable` calls `EnableChannel` and acts on its result, so it reports a module that is enabled as not enabled and leaves it enabled, and enables one that was off while saying it was disabled | a module enabled on channel 7, then `module channel disable` on channel 7 | call `DisableChannel`, which removes the channel and returns whether it was enabled | high, not executed | Modules.ModulesModule.ChannelDisable, Modules.ChannelDisableAsWrittenInverts, Modules.ChannelDisableCounterexample | Modules.ModulesModule.ChannelDisableIntended, Modules.DisableChannelCall |
