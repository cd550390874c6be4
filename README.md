# prismatic music core in Dafny

A model of the playback core of the prismatic chat bot, with proofs about it. Each guild (chat server) of the bot owns a `MusicManager`: a queue of tracks, a playing slot, a history of the last ten started tracks, a loop mode and an optional event handler. The manager's operations change those fields and call the handler's hooks. A `GuildManager` hands out one manager per guild. Beside the manager, the model covers:

- the pure string and filter steps of the YouTube lookup;
- the role and permission helpers of the Discord layer.

Layout, one module per file:

- base.dfy, module `Base`: `Option`, `u64`
- invidious.dfy, module `Invidious`: the fields of the `invidious` crate's video and search types that the code reads
- track.dfy, module `Tracks`: `Track`, `Source`, their equalities, `Clone`, `from_youtube`, `get_url`
- playback.dfy, module `Playback`: each queue operation as a function from the old state to the new state and the hook calls made, plus the lemmas over one or many calls
- manager.dfy, module `Manager`: `class MusicManager` with the source's fields, updated in place; a ghost `events` field logs every hook call. Each method is proved to produce exactly the state and calls of the matching `Playback` function. Also `TrackEndNotifier::act`.
- guilds.dfy, module `Guilds`: `GuildManager` and `GuildData`: a map from guild id to data, with entries created on first access
- youtube_query.dfy, module `YoutubeQuery`: the link-or-search test, `split("?v=").last()`, the `is_video` filter, and `query_youtube` with the two service calls as parameters
- roles.dfy, module `Roles`: the role sort, the member filter, the permission union and table (loops as methods), `as_mention`

Behaviours of the code that are easy to misread, modelled as the code has them:

- **Track equality.** A source-only comparison would be wrong here. `Track` derives `PartialEq`, so it compares title, source and thumbnail; only `Source` compares by video id alone. `Tracks.SameSourceDifferentTitle` exhibits two tracks with one source that are not equal.
- **What `next` pushes.** One might expect `next` to push the track that finished onto the history. It pushes the track it *starts*, and applies the loop mode to that same track. So `previous` right after `next` returns the track now playing (`Playback.PreviousAfterNextReturnsCurrent`).
- **`remove` out of range.** `remove` with an index out of range panics (`Vec::remove`). The model therefore requires the index to be in range.
- **`emit(TrackEnded)` with nothing playing.** It panics only when a handler is attached, because only then is the playing slot read. `Playback.CanEmit` states exactly that precondition.

## Model

| member | source | states |
|---|---|---|
| Playback.Default | src/guilds/music/manager.rs:129-139 | the default manager has an empty queue and history, nothing playing, loop `None` and no handler; it satisfies the history bound |
| Playback.CanEmit | src/guilds/music/manager.rs:106-112 | the condition under which `emit` does not panic: for `TrackEnded` with a handler attached, a track must be playing |
| Playback.HookFor | src/guilds/music/manager.rs:107-124 | each event selects its own hook, one to one; `TrackEnded` passes the playing track, `TrackStarted` and `QueueAdded` pass their own track |
| Playback.Emit | src/guilds/music/manager.rs:105-126 | with a handler, exactly one call of that handler's hook for the event; without one, no call; defined only where `TrackEnded` can read a playing track |
| Playback.PushHistory | src/guilds/music/manager.rs:70-73 | the new track is last; a history under ten grows by it, a full history of ten drops its oldest entry; the bound of ten is kept |
| Playback.ApplyLoop | src/guilds/music/manager.rs:75-85 | the queue keeps its multiset of tracks, plus the started track once under `Queue` and `Track` loops |
| Playback.Next | src/guilds/music/manager.rs:60-86 | keeps the history bound, the handler and the loop mode; the returned track is the playing track |
| Playback.Previous | src/guilds/music/manager.rs:88-95 | keeps the history bound, the playing track, the handler and the loop mode; calls no hook |
| Playback.Remove | src/guilds/music/manager.rs:23-25 | the entry at the index is gone, those before stay in place, those after move up by one; nothing but the queue changes |
| Playback.Clear | src/guilds/music/manager.rs:27-29 | the queue is empty and nothing else changes |
| Playback.Add | src/guilds/music/manager.rs:13-21 | keeps the history bound, the handler and the loop mode |
| Playback.Skip | src/guilds/music/manager.rs:55-58 | keeps the history bound |
| Playback.EndTrack | src/guilds/music/handler.rs:119-124 | keeps the history bound |
| Playback.NextOnEmptyQueue | src/guilds/music/manager.rs:61-64 | on an empty queue `next` goes idle, returns nothing, calls no hook, keeps the history, and a second call changes nothing more |
| Playback.NextOnNonEmptyQueue | src/guilds/music/manager.rs:66-85 | `next` returns the front track and makes it the playing track; it reports `TrackStarted` for that track, pushes it onto the history, and leaves the queue popped, rotated or unchanged under `None`, `Queue` and `Track` loops |
| Playback.NextQueueLength | src/guilds/music/manager.rs:66-85 | the queue shrinks by one without a loop and keeps its length under either loop mode |
| Playback.HistoryEvictsOldest | src/guilds/music/manager.rs:70-73 | a full history stays at ten entries: its oldest entry goes and the new track is last |
| Playback.PreviousAfterNextReturnsCurrent | src/guilds/music/manager.rs:66-70 | `previous` right after `next` returns the track now playing and puts it back at the front of the queue |
| Playback.PreviousOnEmptyHistory | src/guilds/music/manager.rs:88-95 | with an empty history `previous` returns nothing and changes nothing |
| Playback.PreviousMovesNewestToFront | src/guilds/music/manager.rs:88-95 | `previous` takes the newest history entry off the history, puts it at the front of the queue and returns it |
| Playback.SkipReportsBeforeStarting | src/guilds/music/manager.rs:55-58 | `skip` leaves the state a bare `next` leaves; `TrackSkipped` is reported first and before any `TrackStarted` |
| Playback.AddAppendsThenStarts | src/guilds/music/manager.rs:13-21 | `add` reports `QueueAdded` first; while playing it only appends; when idle the remaining calls and the new state are exactly those of `next` on the extended queue, which starts its front track |
| Playback.AddToIdleEmptyStartsIt | src/guilds/music/manager.rs:13-21 | `add` on an idle manager with an empty queue starts the added track, reporting `QueueAdded` and then `TrackStarted` |
| Playback.EndTrackReportsThenAdvances | src/guilds/music/handler.rs:119-124 | wherever `emit(TrackEnded)` cannot panic, the notifier's calls are `emit`'s for `TrackEnded` (the playing track, with a handler) followed by exactly `next`'s calls, and the new state is `next`'s |
| Playback.SkipLastTrackLeavesNothingToEnd | src/guilds/music/manager.rs:55-64 | `skip` of the last queued track, with a handler attached, leaves a manager on which `emit(TrackEnded)` would panic |
| Playback.IterateSplits | src/guilds/music/manager.rs:60-86 | `a + b` consecutive calls are `a` calls followed by `b` calls |
| Playback.NextPopsFront | src/guilds/music/manager.rs:66-84 | without a loop, `next` returns the front track and leaves the rest of the queue |
| Playback.NextRotatesFront | src/guilds/music/manager.rs:76-79 | under the `Queue` loop, `next` returns the front track and moves it to the back |
| Playback.NextKeepsLastTen | src/guilds/music/manager.rs:70-73 | `next` leaves as history the last ten of the old history plus the started track |
| Playback.IteratePopsFront | src/guilds/music/manager.rs:66-84 | a run as long as the queue of front-popping calls returns the queue in order and empties it |
| Playback.FifoWithoutLoop | src/guilds/music/manager.rs:60-86 | without a loop, `next` returns the queued tracks in queue order, then nothing |
| Playback.IterateRotates | src/guilds/music/manager.rs:76-79 | `k` rotating calls rotate the queue by `k` |
| Playback.IterateRotatesPlays | src/guilds/music/manager.rs:76-79 | `k` rotating calls return the first `k` queued tracks |
| Playback.QueueLoopRotates | src/guilds/music/manager.rs:76-79 | under the `Queue` loop, `k` calls of `next` return the first `k` tracks and rotate the queue by `k` |
| Playback.QueueLoopRestoresQueue | src/guilds/music/manager.rs:76-79 | under the `Queue` loop, one pass over the queue plays each track once and restores the queue |
| Playback.QueueLoopCycles | src/guilds/music/manager.rs:76-79 | under the `Queue` loop, two passes play the queue twice over |
| Playback.QueueLoopTwoTracks | src/guilds/music/manager.rs:76-79 | the queue loop over `[a, b]` returns a, b, a, b |
| Playback.TrackLoopRepeats | src/guilds/music/manager.rs:80-83 | under the `Track` loop, every call of `next` returns the front track, which stays playing, and the queue never changes |
| Playback.LastNOfLastN | src/guilds/music/manager.rs:70-73 | trimming to ten twice is trimming to ten once |
| Playback.IterateKeepsLastTen | src/guilds/music/manager.rs:70-73 | after a run, the history is the last ten of the old history plus every track the run returned |
| Playback.HistoryIsLastTenStarted | src/guilds/music/manager.rs:66-73 | after any number of `next` calls, the history is the ten most recently started tracks, oldest first |
| Playback.IteratePopsHistoryQueue | src/guilds/music/manager.rs:88-95 | rewinding the whole history puts it, oldest first, before the queue |
| Playback.IteratePopsHistoryKeeps | src/guilds/music/manager.rs:88-95 | rewinding the whole history empties it, keeps the playing track and calls no hook |
| Playback.IteratePopsHistoryNewestFirst | src/guilds/music/manager.rs:88-95 | rewinding the whole history returns it newest first |
| Playback.RewindWholeHistory | src/guilds/music/manager.rs:88-95 | one `previous` per history entry returns the history newest first, empties it, queues it oldest first before the queue, keeps the playing track and calls no hook |
| Playback.AddAllAppends | src/guilds/music/manager.rs:13-21 | while a track plays, a series of `add` calls appends the tracks in order and reports one `QueueAdded` per track, in order |
| Playback.FifoAfterAdds | src/guilds/music/manager.rs:13-21 | FIFO order: tracks added while playing come out of `next` after what was queued, in the order they were added, then nothing |
| Playback.AddMayStartAnotherTrack | src/guilds/music/manager.rs:13-21 | `add` on an idle manager can start a track other than the added one: after `previous` re-queued an earlier track, `add` starts that track |
| Manager.MusicManager.constructor | src/guilds/music/manager.rs:129-139 | a new manager holds the default state and has called no hook |
| Manager.MusicManager.Get | src/guilds/music/manager.rs:31-33 | a track exactly for an index in range, the track at that index |
| Manager.MusicManager.Len | src/guilds/music/manager.rs:35-37 | the number of queued tracks |
| Manager.MusicManager.IsEmpty | src/guilds/music/manager.rs:39-41 | true exactly when the length is zero |
| Manager.MusicManager.NowPlaying | src/guilds/music/manager.rs:43-45 | the playing slot |
| Manager.MusicManager.GetLoop | src/guilds/music/manager.rs:51-53 | the loop mode |
| Manager.MusicManager.HasHandler | src/guilds/music/manager.rs:101-103 | true exactly when a handler is attached |
| Manager.MusicManager.SetLoop | src/guilds/music/manager.rs:47-49 | only the loop mode changes |
| Manager.MusicManager.SetEventHandler | src/guilds/music/manager.rs:97-99 | only the handler changes; it replaces any earlier one |
| Manager.MusicManager.Remove | src/guilds/music/manager.rs:23-25 | the new fields are `Playback.Remove` of the old ones |
| Manager.MusicManager.Clear | src/guilds/music/manager.rs:27-29 | the new fields are `Playback.Clear` of the old ones |
| Manager.MusicManager.Emit | src/guilds/music/manager.rs:105-126 | the hook calls made are exactly `Playback.Emit`'s; no field changes |
| Manager.MusicManager.Next | src/guilds/music/manager.rs:60-86 | the new fields, the returned track and the hook calls are `Playback.Next`'s; on an empty queue nothing is returned and nothing is reported; otherwise the old front track is returned, playing and newest in the history |
| Manager.MusicManager.Add | src/guilds/music/manager.rs:13-21 | fields and hook calls as `Playback.Add`; while playing the track is only appended |
| Manager.MusicManager.Skip | src/guilds/music/manager.rs:55-58 | fields and hook calls as `Playback.Skip` |
| Manager.MusicManager.Previous | src/guilds/music/manager.rs:88-95 | fields and result as `Playback.Previous`; the newest history entry is returned and put in front of the queue, or nothing changes |
| Manager.NotifyTrackEnd | src/guilds/music/handler.rs:119-124 | fields and hook calls as `Playback.EndTrack` |
| Guilds.GuildData.constructor | src/guilds/data.rs:24-27 | a fresh manager in the default state |
| Guilds.GuildManager.constructor | src/guilds/data.rs:13-17 | no guild yet |
| Guilds.GuildManager.Get | src/guilds/data.rs:19-21 | the id becomes a key and no other key appears; an existing entry is returned unchanged; a new entry holds a fresh default manager; other entries stay as they were; different guilds never share a manager |
| Tracks.GetUrl | src/guilds/music/track.rs:37-41 | the watch-link prefix followed by the video id, exactly |
| Tracks.SourceEq | src/guilds/music/track.rs:44-50 | two sources are equal when their video ids are |
| Tracks.TrackEq | src/guilds/music/track.rs:3 | the derived equality of tracks: title, source by `SourceEq`, and thumbnail |
| Tracks.GetUrlIdentifiesSource | src/guilds/music/track.rs:37-49 | two sources have the same URL exactly when they are equal |
| Tracks.Clone | src/guilds/music/track.rs:10-18 | the copy is equal to the original |
| Tracks.FromYoutube | src/guilds/music/track.rs:20-27 | title and source from the video; thumbnail absent exactly for a video without thumbnails, else the first one's url; the URL uses the video's id |
| Tracks.SourceEqIsEquivalence | src/guilds/music/track.rs:44-50 | source equality is reflexive, symmetric and transitive |
| Tracks.SourceEqIgnoresMetadata | src/guilds/music/track.rs:44-50 | sources of different videos with one id are equal |
| Tracks.TrackEqMeansFieldsAgree | src/guilds/music/track.rs:3-8 | track equality holds exactly when title, video id and thumbnail agree |
| Tracks.TrackEqIsEquivalence | src/guilds/music/track.rs:3-8 | track equality is reflexive, symmetric and transitive |
| Tracks.SameSourceDifferentTitle | src/guilds/music/track.rs:3-8 | two tracks with one source and different titles are not equal |
| YoutubeQuery.DoSearch | src/helper/music.rs:92 | a query is a link exactly when it is `http` followed by anything |
| YoutubeQuery.StartsWith | src/helper/music.rs:92 | `starts_with`: the prefix is an initial segment of the string |
| YoutubeQuery.ParamAtIsOccurrence | src/helper/music.rs:106 | the three-character test is an occurrence of the literal `?v=` |
| YoutubeQuery.FindParamIsFirst | src/helper/music.rs:106 | the occurrence found is the first one; none is reported only when there is none |
| YoutubeQuery.SplitFrom | src/helper/music.rs:106 | the pieces of a suffix between occurrences of `?v=`, left to right; at least one piece |
| YoutubeQuery.Split | src/helper/music.rs:106 | `split("?v=")` collected; at least one piece |
| YoutubeQuery.Last | src/helper/music.rs:106 | `last()` of a non-empty split: its final element |
| YoutubeQuery.JoinSplit | src/helper/music.rs:106 | joining the pieces of `split("?v=")` with `?v=` gives back the query |
| YoutubeQuery.SplitPiecesAvoidParam | src/helper/music.rs:106 | no piece of the split contains `?v=` |
| YoutubeQuery.VideoId | src/helper/music.rs:106 | the extracted id never contains `?v=` |
| YoutubeQuery.VideoIdWithoutParam | src/helper/music.rs:106 | without `?v=` the id is the whole query |
| YoutubeQuery.LastPieceAfterLastParam | src/helper/music.rs:106 | the last piece is the text after the last occurrence of `?v=` |
| YoutubeQuery.VideoIdAfterLastParam | src/helper/music.rs:106 | the id is the text after the last `?v=` of the query |
| YoutubeQuery.IsVideo | src/helper/music.rs:138-143 | some video exactly for a `Video` item, namely that item's video |
| YoutubeQuery.FilterVideos | src/helper/music.rs:104 | never more videos than items |
| YoutubeQuery.FilterVideosAppend | src/helper/music.rs:104 | filtering a concatenation concatenates the filtered parts, so order is kept |
| YoutubeQuery.FilterVideosKeepsExactlyVideos | src/helper/music.rs:104 | a video is kept exactly when the response holds it as a `Video` item |
| YoutubeQuery.FilterVideosOfVideos | src/helper/music.rs:104 | a response of videos only comes back as it is |
| YoutubeQuery.QueryYoutube | src/helper/music.rs:88-116 | a search returns exactly the `Video` items of the search results for `q=` and the query, in their order and multiplicity; a link returns the one video looked up by its id, which holds no `?v=` |
| YoutubeQuery.WatchUrlRoundTrip | src/helper/music.rs:92-106 | for a video id without `?v=`, a track's own watch link is taken as a link and looked up by that same video id |
| Roles.SortedCons | src/discord/roles.rs:15 | a role at or above every role of an order by position can go in front |
| Roles.Insert | src/discord/roles.rs:15 | inserting keeps the order by position and adds exactly that role |
| Roles.SortByPosition | src/discord/roles.rs:14-15 | ordered by position, highest first, and a permutation of the input |
| Roles.GuildRoles | src/discord/roles.rs:11-18 | the guild's roles, highest position first: the same roles, each as often |
| Roles.HeldBy | src/discord/roles.rs:24-26 | the filter on the member's role ids; never more roles than given |
| Roles.HeldByAppend | src/discord/roles.rs:24-26 | filtering a concatenation concatenates the filtered parts |
| Roles.HeldByKeepsExactlyHeld | src/discord/roles.rs:24-26 | a role is kept exactly when the member lists its id |
| Roles.HeldByKeepsOrder | src/discord/roles.rs:24-26 | filtering keeps an order by position |
| Roles.UserRoles | src/discord/roles.rs:20-27 | the member's roles are exactly the guild roles whose id the member lists, highest position first |
| Roles.PermissionUnion | src/discord/roles.rs:33-35 | the in-place union over the roles, first to last; every role's permissions are contained in it |
| Roles.PermissionUnionGrants | src/discord/roles.rs:33-35 | a permission is in the union exactly when some role grants it |
| Roles.PermissionUnionIgnoresOrder | src/discord/roles.rs:33-35 | the union does not depend on the order of the roles |
| Roles.MemberPermissionsGrants | src/discord/roles.rs:29-38 | a member has a permission exactly when a guild role it holds grants it |
| Roles.MemberWithoutRolesHasNone | src/discord/roles.rs:29-38 | a member holding no role has no permission |
| Roles.AllPermissions | src/discord/roles.rs:29-38 | the loop computes the union of the permissions of the member's roles |
| Roles.PermissionTable | src/discord/roles.rs:43-58 | the keys are all permission names; with `Administrator` every name maps to true, otherwise a name maps to true exactly when granted |
| Roles.AdministratorGrantsAll | src/discord/roles.rs:48-53 | with `Administrator` the table is that of a member granted every name |
| Roles.NamesStep | src/discord/roles.rs:49-58 | one more name of the list adds that name to the keys |
| Roles.IsPermissionTable | src/discord/roles.rs:49-58 | a map over all names agreeing with the table everywhere is the table |
| Roles.GetPermissions | src/discord/roles.rs:40-61 | both loops build the permission table of the member's permissions |
| Roles.Digit | src/discord/roles.rs:73 | the character of a digit has that digit's value |
| Roles.DecimalString | src/discord/roles.rs:73 | the decimal form of an id is a non-empty string of digits with no leading zero |
| Roles.ParseDecimalString | src/discord/roles.rs:73 | reading the decimal form back gives the id |
| Roles.AsMention | src/discord/roles.rs:67-75 | `@everyone` for the role of that name; for any other role, `<@&`, the decimal id, then `>` |
| Roles.MentionsEveryoneOnlyForEveryone | src/discord/roles.rs:68-74 | the mention is `@everyone` exactly for the role of that name |
| Roles.MentionIdentifiesRole | src/discord/roles.rs:68-74 | mentions of two roles other than `@everyone` are equal exactly when their ids are |

## Left out

- The voice and playback engine (songbird), the Discord API (serenity) and the Invidious HTTP client are not part of this model. Their results are parameters: the guild's roles, the search results and the video lookup.
- Locks and concurrency: a `MusicManager` is reached through `Arc<Mutex<_>>`, and every operation is modelled as one atomic step under that lock. The `async` suspension points are not modelled.
- Manager.NotifyTrackEnd: requires that `emit(TrackEnded)` cannot panic (`Playback.CanEmit`), which the source does not guarantee. `Playback.SkipLastTrackLeavesNothingToEnd` shows a reachable manager where it fails: `skip` of the last track. Whether the engine then reports an end for the stopped track belongs to songbird and is not modelled. With more tracks queued, the same report would call `next` once more and pass over a track. The `if let EventContext::Track(_)` guard is not modelled. The notifier is registered for track-end events only, so the model always runs emit and `next`.
- Handler hooks: what a hook does (message sending, voice connection, starting playback) is outside the manager. The model logs only which hook of which handler was called, in order, in the ghost `events` field. Hook results are ignored, as in the source.
- `QueueEmptied` is never emitted by the modelled core. `emit` still handles it, and the model keeps that case.
- Integer widths: `Vec` indices and lengths are unbounded `nat`s, because no operation comes near `usize` overflow. Guild and role ids are `u64`; role positions are `u16`.
- Permissions: serenity's bit-flag set is modelled as the set of its flag names. `Permissions::all().get_permission_names()` is the parameter `all`. The names of the flags are not listed.
- Roles.SortByPosition: `sort_by` is the standard library's stable sort of a `Vec` in place. It is modelled as an insertion sort on a sequence, and its contract is sorted-and-permutation. Because the roles come from a hash map in no fixed order, the stable order of roles with equal positions is not stated.
- The `expect` calls on requests to external services (the role fetch, the search, the video lookup) are not modelled: the parameters always answer.
- Everything in src/helper/music.rs that talks to songbird or serenity (`ensure_connected`, `get_voice_channel`, `is_connected`, `connect_to`, `stop_playing`, `play_track`, `TrackErrorNotifier`) and the command modules are I/O glue. They are not part of this model.
- The `invidious` types keep only the fields the code reads, plus an `author` field standing for the metadata that source equality ignores.
