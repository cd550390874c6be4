/**
 * `MusicManager` (src/guilds/music/manager.rs) as an object whose methods
 * update its fields in place. Each method is proved to leave exactly the
 * state, and to invoke exactly the hooks, that the matching function of
 * module `Playback` describes; what those functions promise is proved there.
 */
module Manager {
  import opened Base
  import opened Tracks
  import opened Playback

  class MusicManager {
    var queue: seq<Track>
    var previous: seq<Track>
    var playing: Option<Track>
    var handler: Option<EventHandler>
    var musicLoop: Loop
    /** Every hook invocation made on an attached handler so far, oldest first. */
    ghost var events: seq<Call>

    /** The fields as a `Playback.State` value. */
    function Value(): State
      reads this
    {
      State(queue, previous, playing, handler, musicLoop)
    }

    /** The object invariant: the history holds at most ten tracks. */
    predicate Valid()
      reads this
    {
      Playback.Valid(Value())
    }

    /** `MusicManager::default` (manager.rs:129-139). */
    constructor ()
      ensures Valid() && Value() == Playback.Default() && events == []
    {
      queue := [];
      previous := [];
      playing := Option.None;
      musicLoop := Loop.None;
      handler := Option.None;
      events := [];
    }

    /** `get`: the queued track at `index`, if there is one (manager.rs:31-33). */
    function Get(index: nat): (r: Option<Track>)
      reads this
      ensures r.Some? <==> index < |queue|
      ensures r.Some? ==> r.value == queue[index]
    {
      if index < |queue| then Some(queue[index]) else Option.None
    }

    /** `len` (manager.rs:35-37). */
    function Len(): (n: nat)
      reads this
      ensures n == |queue|
    {
      |queue|
    }

    /** `is_empty` (manager.rs:39-41). */
    function IsEmpty(): (b: bool)
      reads this
      ensures b <==> Len() == 0
    {
      |queue| == 0
    }

    /** `now_playing` (manager.rs:43-45). */
    function NowPlaying(): (t: Option<Track>)
      reads this
      ensures t == playing
    {
      playing
    }

    /** `get_loop` (manager.rs:51-53). */
    function GetLoop(): (mode: Loop)
      reads this
      ensures mode == musicLoop
    {
      musicLoop
    }

    /** `has_handler` (manager.rs:101-103). */
    function HasHandler(): (b: bool)
      reads this
      ensures b <==> handler.Some?
    {
      handler.Some?
    }

    /** `set_loop`: changes the loop mode only, reports nothing (manager.rs:47-49). */
    method SetLoop(mode: Loop)
      modifies this`musicLoop
      ensures Value() == old(Value()).(musicLoop := mode)
    {
      musicLoop := mode;
    }

    /** `event_handler`: attaches a handler, replacing any earlier one (manager.rs:97-99). */
    method SetEventHandler(h: EventHandler)
      modifies this`handler
      ensures Value() == old(Value()).(handler := Some(h))
    {
      handler := Some(h);
    }

    /** `remove`: drops the queued track at `index`; the source panics when it is out of range (manager.rs:23-25). */
    method Remove(index: nat)
      requires index < |queue|
      modifies this`queue
      ensures Value() == Playback.Remove(old(Value()), index)
    {
      queue := queue[..index] + queue[index + 1..];
    }

    /** `clear` (manager.rs:27-29). */
    method Clear()
      modifies this`queue
      ensures Value() == Playback.Clear(old(Value()))
    {
      queue := [];
    }

    /** `emit`: calls the attached handler's hook for `e`, if a handler is attached (manager.rs:105-126). */
    method Emit(e: Event)
      requires CanEmit(Value(), e)
      modifies this`events
      ensures events == old(events) + Playback.Emit(Value(), e)
    {
      if handler.Some? {
        var h := handler.value;
        match e
        case TrackStarted(t) =>
          events := events + [Call(h, OnTrackStart(t))];
        case TrackEnded =>
          var currentlyPlaying := Clone(playing.value);
          events := events + [Call(h, OnTrackEnd(currentlyPlaying))];
        case QueueAdded(t) =>
          events := events + [Call(h, OnQueueAdded(t))];
        case TrackSkipped =>
          events := events + [Call(h, OnTrackSkipped)];
        case QueueEmptied =>
          events := events + [Call(h, OnQueueEmptied)];
      }
    }

    /** `next` (manager.rs:60-86). */
    method Next() returns (r: Option<Track>)
      requires Valid()
      modifies this
      ensures Valid()
      ensures var step := Playback.Next(old(Value()));
        Value() == step.state && r == step.track && events == old(events) + step.calls
      ensures old(queue) == [] ==> r.None? && playing.None? && events == old(events) && previous == old(previous)
      ensures old(queue) != [] ==> r == Some(old(queue)[0]) && playing == r && previous[|previous| - 1] == r.value
    {
      if |queue| == 0 {
        playing := Option.None;
        return Option.None;
      }

      ghost var before := Value();
      var track := queue[0];
      queue := queue[1..];
      playing := Some(Clone(track));
      Emit(TrackStarted(Clone(track)));
      ghost var started := Value();

      previous := previous + [Clone(track)];
      if |previous| > HistoryCapacity {
        previous := previous[1..];
      }
      assert previous == PushHistory(before.previous, track);

      match musicLoop
      case Queue =>
        queue := queue + [Clone(track)];
        r := Some(track);
      case Track =>
        queue := [Clone(track)] + queue;
        r := Some(track);
      case None =>
        r := Some(track);
      assert queue == ApplyLoop(musicLoop, track, started.queue);
    }

    /** `add` (manager.rs:13-21). */
    method Add(track: Track)
      requires Valid()
      modifies this
      ensures Valid()
      ensures var effect := Playback.Add(old(Value()), track);
        Value() == effect.state && events == old(events) + effect.calls
      ensures old(playing).Some? ==> queue == old(queue) + [track] && playing == old(playing)
    {
      queue := queue + [Clone(track)];
      Emit(QueueAdded(Clone(track)));

      if playing.None? {
        var _ := Next();
      }
    }

    /** `skip` (manager.rs:55-58). */
    method Skip()
      requires Valid()
      modifies this
      ensures Valid()
      ensures var effect := Playback.Skip(old(Value()));
        Value() == effect.state && events == old(events) + effect.calls
    {
      Emit(TrackSkipped);
      var _ := Next();
    }

    /** `previous` (manager.rs:88-95). */
    method Previous() returns (r: Option<Track>)
      requires Valid()
      modifies this`previous, this`queue
      ensures Valid()
      ensures var step := Playback.Previous(old(Value()));
        Value() == step.state && r == step.track
      ensures old(previous) == [] ==> r.None? && Value() == old(Value())
      ensures old(previous) != [] ==> r == Some(old(previous)[|old(previous)| - 1]) && queue == [r.value] + old(queue)
    {
      if |previous| > 0 {
        var track := previous[|previous| - 1];
        previous := previous[..|previous| - 1];
        queue := [Clone(track)] + queue;
        r := Some(track);
      } else {
        r := Option.None;
      }
    }
  }

  /**
   * `TrackEndNotifier::act` (handler.rs:119-124): on the engine's
   * end-of-track notification, emit `TrackEnded` and advance with `next`.
   * The lock it takes is not modelled; the call is atomic here.
   */
  method NotifyTrackEnd(manager: MusicManager)
    requires manager.Valid() && CanEmit(manager.Value(), TrackEnded)
    modifies manager
    ensures manager.Valid()
    ensures var effect := Playback.EndTrack(old(manager.Value()));
      manager.Value() == effect.state && manager.events == old(manager.events) + effect.calls
  {
    manager.Emit(TrackEnded);
    var _ := manager.Next();
  }
}
