/**
 * The per-guild music queue state machine of src/guilds/music/manager.rs,
 * stated on values. Each operation is a function from the old state to the
 * new state together with the handler hooks it invokes, in order. The class
 * `Manager.MusicManager` is proved against these functions, and the lemmas
 * below state what the state machine promises over one or many calls.
 */
module Playback {
  import opened Base
  import opened Tracks

  /** The history keeps at most this many tracks (manager.rs:71). */
  const HistoryCapacity: nat := 10

  /** `Loop`: what `next` does with the track it starts. */
  datatype Loop = None | Queue | Track

  /** `Event`: what the state machine reports to its handler. */
  datatype Event =
    | TrackStarted(track: Track)
    | TrackEnded
    | QueueAdded(track: Track)
    | QueueEmptied
    | TrackSkipped

  /** The hooks of `MusicEventHandler` (event.rs), as their invocations. */
  datatype Hook =
    | OnTrackStart(track: Track)
    | OnTrackEnd(track: Track)
    | OnTrackSkipped
    | OnQueueAdded(track: Track)
    | OnQueueEmptied

  /**
   * An attached handler object, known only by its identity: every hook's
   * effect lies outside the manager (audio, chat messages), so the manager
   * observes nothing but the fact that the hook was called.
   */
  datatype EventHandler = EventHandler(id: nat)

  /** One hook invocation: which handler was called, and with what. */
  datatype Call = Call(handler: EventHandler, hook: Hook)

  /** The fields of `MusicManager`. */
  datatype State = State(
    queue: seq<Track>,
    previous: seq<Track>,
    playing: Option<Track>,
    handler: Option<EventHandler>,
    musicLoop: Loop)

  /** What a call of `next` or `previous` leaves behind and returns. */
  datatype Step = Step(state: State, calls: seq<Call>, track: Option<Track>)

  /** What a call of `add`, `skip` or the end notifier leaves behind. */
  datatype Effect = Effect(state: State, calls: seq<Call>)

  /** The state invariant: the history never holds more than ten tracks. */
  predicate Valid(s: State) {
    |s.previous| <= HistoryCapacity
  }

  /** `impl Default for MusicManager` (manager.rs:129-139). */
  function Default(): (s: State)
    ensures Valid(s)
    ensures s.queue == [] && s.previous == [] && s.playing.None?
    ensures s.musicLoop == Loop.None && s.handler.None?
  {
    State([], [], Option.None, Option.None, Loop.None)
  }

  /** `emit(TrackEnded)` reads the playing track, and panics without one, only when a handler is attached. */
  predicate CanEmit(s: State, e: Event) {
    e.TrackEnded? && s.handler.Some? ==> s.playing.Some?
  }

  /** The hook that `emit` invokes for an event (manager.rs:107-124). */
  function HookFor(s: State, e: Event): (hook: Hook)
    requires e.TrackEnded? ==> s.playing.Some?
    ensures e.TrackEnded? <==> hook.OnTrackEnd?
    ensures e.TrackStarted? <==> hook.OnTrackStart?
    ensures e.QueueAdded? <==> hook.OnQueueAdded?
    ensures e.TrackSkipped? <==> hook.OnTrackSkipped?
    ensures e.QueueEmptied? <==> hook.OnQueueEmptied?
    ensures hook.OnTrackEnd? ==> hook.track == s.playing.value
    ensures (e.TrackStarted? || e.QueueAdded?) ==> hook.track == e.track
  {
    match e
    case TrackStarted(t) => OnTrackStart(t)
    case TrackEnded => OnTrackEnd(s.playing.value)
    case QueueAdded(t) => OnQueueAdded(t)
    case QueueEmptied => OnQueueEmptied
    case TrackSkipped => OnTrackSkipped
  }

  /** `emit`: one hook call on the attached handler, none without one (manager.rs:105-126). */
  function Emit(s: State, e: Event): (calls: seq<Call>)
    requires CanEmit(s, e)
    ensures s.handler.None? ==> calls == []
    ensures s.handler.Some? ==> calls == [Call(s.handler.value, HookFor(s, e))]
  {
    match s.handler
    case None => []
    case Some(h) => [Call(h, HookFor(s, e))]
  }

  /** Append to the history, then drop the oldest entry once it exceeds ten (manager.rs:70-73). */
  function PushHistory(h: seq<Track>, t: Track): (r: seq<Track>)
    ensures |h| <= HistoryCapacity ==> |r| <= HistoryCapacity
    ensures |r| > 0 && r[|r| - 1] == t
    ensures |h| < HistoryCapacity ==> r == h + [t]
    ensures |h| == HistoryCapacity ==> r == h[1..] + [t]
  {
    var pushed := h + [t];
    if |pushed| > HistoryCapacity then pushed[1..] else pushed
  }

  /** The loop policy applied to the track `next` just took off the queue (manager.rs:75-85). */
  function ApplyLoop(mode: Loop, t: Track, rest: seq<Track>): (q: seq<Track>)
    ensures multiset(q) == multiset(rest) + (if mode == Loop.None then multiset{} else multiset{t})
  {
    match mode
    case None => rest
    case Queue => rest + [t]
    case Track => [t] + rest
  }

  /** `next` (manager.rs:60-86). */
  function Next(s: State): (r: Step)
    ensures Valid(s) ==> Valid(r.state)
    ensures r.state.handler == s.handler && r.state.musicLoop == s.musicLoop
    ensures r.track == r.state.playing
  {
    if |s.queue| == 0 then
      Step(s.(playing := Option.None), [], Option.None)
    else
      var t := s.queue[0];
      var started := s.(queue := s.queue[1..], playing := Some(t));
      var calls := Emit(started, TrackStarted(t));
      var after := started.(
        previous := PushHistory(s.previous, t),
        queue := ApplyLoop(s.musicLoop, t, started.queue));
      Step(after, calls, Some(t))
  }

  /** `add` (manager.rs:13-21). */
  function Add(s: State, t: Track): (r: Effect)
    ensures Valid(s) ==> Valid(r.state)
    ensures r.state.handler == s.handler && r.state.musicLoop == s.musicLoop
  {
    var queued := s.(queue := s.queue + [Clone(t)]);
    var added := Emit(queued, QueueAdded(Clone(t)));
    if queued.playing.None? then
      var started := Next(queued);
      Effect(started.state, added + started.calls)
    else
      Effect(queued, added)
  }

  /** `skip` (manager.rs:55-58). */
  function Skip(s: State): (r: Effect)
    ensures Valid(s) ==> Valid(r.state)
  {
    var skipped := Emit(s, TrackSkipped);
    var started := Next(s);
    Effect(started.state, skipped + started.calls)
  }

  /** `previous` (manager.rs:88-95). */
  function Previous(s: State): (r: Step)
    ensures Valid(s) ==> Valid(r.state)
    ensures r.calls == []
    ensures r.state.playing == s.playing && r.state.handler == s.handler
    ensures r.state.musicLoop == s.musicLoop
  {
    if |s.previous| == 0 then
      Step(s, [], Option.None)
    else
      var t := s.previous[|s.previous| - 1];
      Step(s.(previous := s.previous[..|s.previous| - 1], queue := [t] + s.queue), [], Some(t))
  }

  /** `remove`: `Vec::remove` panics unless the index is in range (manager.rs:23-25). */
  function Remove(s: State, index: nat): (r: State)
    requires index < |s.queue|
    ensures |r.queue| == |s.queue| - 1
    ensures forall j :: 0 <= j < index ==> r.queue[j] == s.queue[j]
    ensures forall j :: index <= j < |r.queue| ==> r.queue[j] == s.queue[j + 1]
    ensures r.(queue := s.queue) == s
  {
    s.(queue := s.queue[..index] + s.queue[index + 1..])
  }

  /** `clear` empties the queue and nothing else (manager.rs:27-29). */
  function Clear(s: State): (r: State)
    ensures r.queue == [] && r.(queue := s.queue) == s
  {
    s.(queue := [])
  }

  /**
   * `TrackEndNotifier::act` (handler.rs:119-124): the engine reports the end
   * of a track; the notifier emits `TrackEnded` and then calls `next`.
   */
  function EndTrack(s: State): (r: Effect)
    requires CanEmit(s, TrackEnded)
    ensures Valid(s) ==> Valid(r.state)
  {
    var ended := Emit(s, TrackEnded);
    var started := Next(s);
    Effect(started.state, ended + started.calls)
  }

  // ---------------------------------------------------------------------
  // Runs of several calls

  /** What `n` consecutive calls of `next` leave behind and return. */
  datatype Trace = Trace(state: State, tracks: seq<Option<Track>>, calls: seq<Call>)

  /** `n` consecutive calls of one operation, each on the state the one before left. */
  function Iterate(step: State -> Step, s: State, n: nat): (r: Trace)
    ensures |r.tracks| == n
    decreases n
  {
    if n == 0 then Trace(s, [], [])
    else
      var first := step(s);
      var rest := Iterate(step, first.state, n - 1);
      Trace(rest.state, [first.track] + rest.tracks, first.calls + rest.calls)
  }

  /** `n` consecutive calls of `next`. */
  function Run(s: State, n: nat): (r: Trace)
    ensures |r.tracks| == n
  {
    Iterate(Next, s, n)
  }

  /** `n` consecutive calls of `previous`. */
  function Rewind(s: State, n: nat): (r: Trace)
    ensures |r.tracks| == n
  {
    Iterate(Previous, s, n)
  }

  /** `add` of each track of `ts` in turn. */
  function AddAll(s: State, ts: seq<Track>): (r: Effect)
    decreases |ts|
  {
    if ts == [] then Effect(s, [])
    else
      var first := Add(s, ts[0]);
      var rest := AddAll(first.state, ts[1..]);
      Effect(rest.state, first.calls + rest.calls)
  }

  /** Each track wrapped in `Some`, in order. */
  function Somes(ts: seq<Track>): (r: seq<Option<Track>>)
    ensures |r| == |ts|
  {
    seq(|ts|, i requires 0 <= i < |ts| => Some(ts[i]))
  }

  /** The tracks actually returned by a sequence of calls, `None`s dropped. */
  function Played(rs: seq<Option<Track>>): seq<Track> {
    if rs == [] then []
    else (if rs[0].Some? then [rs[0].value] else []) + Played(rs[1..])
  }

  /** The last `n` elements of `s`, or all of `s` when it is shorter. */
  function LastN(s: seq<Track>, n: nat): (r: seq<Track>)
    ensures |r| == if |s| <= n then |s| else n
  {
    if |s| <= n then s else s[|s| - n..]
  }

  /** `s` read from back to front. */
  function Reversed(s: seq<Track>): (r: seq<Track>)
    ensures |r| == |s|
  {
    seq(|s|, i requires 0 <= i < |s| => s[|s| - 1 - i])
  }

  // ---------------------------------------------------------------------
  // One call

  /** `next` on an empty queue goes idle, returns nothing, emits nothing and keeps the history; again and again. */
  lemma NextOnEmptyQueue(s: State)
    requires s.queue == []
    ensures Next(s).track.None? && Next(s).calls == []
    ensures Next(s).state == s.(playing := Option.None)
    ensures Next(Next(s).state) == Next(s)
  {
  }

  /**
   * `next` on a non-empty queue takes the front track, makes it the playing
   * track, reports exactly `TrackStarted` for it and returns it; the history
   * gains that same track, and the loop mode decides what becomes of it.
   */
  lemma NextOnNonEmptyQueue(s: State)
    requires s.queue != []
    ensures var r := Next(s); var t := s.queue[0];
      && r.track == Some(t)
      && r.state.playing == Some(t)
      && r.calls == (if s.handler.Some? then [Call(s.handler.value, OnTrackStart(t))] else [])
      && r.state.previous == PushHistory(s.previous, t)
      && (s.musicLoop == Loop.None ==> r.state.queue == s.queue[1..])
      && (s.musicLoop == Loop.Queue ==> r.state.queue == s.queue[1..] + [t])
      && (s.musicLoop == Loop.Track ==> r.state.queue == s.queue)
  {
    assert [s.queue[0]] + s.queue[1..] == s.queue;
  }

  /** The queue shrinks by one without a loop and keeps its length under both loop modes. */
  lemma NextQueueLength(s: State)
    requires s.queue != []
    ensures s.musicLoop == Loop.None ==> |Next(s).state.queue| == |s.queue| - 1
    ensures s.musicLoop != Loop.None ==> |Next(s).state.queue| == |s.queue|
  {
  }

  /** A full history loses its oldest entry; the newest is last. */
  lemma HistoryEvictsOldest(h: seq<Track>, t: Track)
    requires |h| == HistoryCapacity
    ensures |PushHistory(h, t)| == HistoryCapacity
    ensures PushHistory(h, t)[..HistoryCapacity - 1] == h[1..]
    ensures PushHistory(h, t)[HistoryCapacity - 1] == t
  {
  }

  /**
   * `next` pushes the track it STARTS onto the history, so `previous` right
   * after `next` hands back the track now playing and queues it at the front.
   */
  lemma PreviousAfterNextReturnsCurrent(s: State)
    requires s.queue != []
    ensures var n := Next(s); var p := Previous(n.state);
      && p.track == Some(s.queue[0])
      && p.track == n.state.playing
      && p.state.queue == [s.queue[0]] + n.state.queue
      && p.state.playing == Some(s.queue[0])
  {
  }

  /** `previous` on an empty history returns nothing and changes nothing. */
  lemma PreviousOnEmptyHistory(s: State)
    requires s.previous == []
    ensures Previous(s) == Step(s, [], Option.None)
  {
  }

  /** `previous` moves the newest history entry to the front of the queue. */
  lemma PreviousMovesNewestToFront(s: State)
    requires s.previous != []
    ensures var r := Previous(s); var t := s.previous[|s.previous| - 1];
      && r.track == Some(t)
      && r.state.queue == [t] + s.queue
      && r.state.previous + [t] == s.previous
  {
  }

  /**
   * `skip` reports `TrackSkipped` before anything its own `next` reports,
   * and leaves exactly the state a bare `next` would.
   */
  lemma SkipReportsBeforeStarting(s: State)
    ensures Skip(s).state == Next(s).state
    ensures Skip(s).calls == Emit(s, TrackSkipped) + Next(s).calls
    ensures s.handler.Some? ==> Skip(s).calls[0] == Call(s.handler.value, OnTrackSkipped)
    ensures forall i :: 0 <= i < |Skip(s).calls| && Skip(s).calls[i].hook.OnTrackStart? ==> i > 0
  {
  }

  /**
   * `add` appends a copy of the track and reports `QueueAdded` before
   * anything else; when nothing was playing it then calls `next`, which
   * starts the FRONT of the queue.
   */
  lemma AddAppendsThenStarts(s: State, t: Track)
    ensures var r := Add(s, t); var queued := s.(queue := s.queue + [t]);
      && (s.handler.Some? ==> |r.calls| >= 1 && r.calls[0] == Call(s.handler.value, OnQueueAdded(t)))
      && (s.playing.Some? ==> r.state == queued && |r.calls| == |Emit(s, QueueAdded(t))|)
      && (s.playing.None? ==>
            && r.state == Next(queued).state
            && r.calls == Emit(s, QueueAdded(t)) + Next(queued).calls
            && r.state.playing == Some((s.queue + [t])[0]))
  {
  }

  /** Adding to an idle manager with an empty queue starts that very track within the same call. */
  lemma AddToIdleEmptyStartsIt(s: State, t: Track)
    requires s.playing.None? && s.queue == [] && s.handler.Some?
    ensures Add(s, t).state.playing == Some(t)
    ensures Add(s, t).calls == [Call(s.handler.value, OnQueueAdded(t)), Call(s.handler.value, OnTrackStart(t))]
  {
  }

  /**
   * The end notifier reports the track that was playing, then advances the
   * queue exactly as `next` does.
   */
  lemma EndTrackReportsThenAdvances(s: State)
    requires CanEmit(s, TrackEnded)
    ensures EndTrack(s).state == Next(s).state
    ensures EndTrack(s).calls == Emit(s, TrackEnded) + Next(s).calls
    ensures s.handler.Some? ==> EndTrack(s).calls[0] == Call(s.handler.value, OnTrackEnd(s.playing.value))
    ensures s.handler.None? ==> EndTrack(s).calls == []
  {
  }

  /**
   * Nothing in the manager keeps `CanEmit(_, TrackEnded)` true: `skip` of the
   * last queued track leaves a manager with a handler and nothing playing, so
   * an end-of-track report for the skipped track would reach the panic in `emit`.
   */
  lemma SkipLastTrackLeavesNothingToEnd(s: State)
    requires s.playing.Some? && s.queue == [] && s.handler.Some?
    ensures CanEmit(s, TrackEnded)
    ensures !CanEmit(Skip(s).state, TrackEnded)
  {
  }

  // ---------------------------------------------------------------------
  // Several calls

  /** Two runs of an operation in a row are one longer run. */
  lemma {:induction false} IterateSplits(step: State -> Step, s: State, a: nat, b: nat)
    ensures Iterate(step, s, a + b).state == Iterate(step, Iterate(step, s, a).state, b).state
    ensures Iterate(step, s, a + b).tracks
         == Iterate(step, s, a).tracks + Iterate(step, Iterate(step, s, a).state, b).tracks
    decreases a
  {
    if a > 0 {
      IterateSplits(step, step(s).state, a - 1, b);
      assert a + b - 1 == (a - 1) + b;
    }
  }

  /** One call of an operation followed by `n` more is a run of `n + 1`. */
  lemma IterateUnfold(step: State -> Step, s: State, n: nat)
    ensures Iterate(step, s, n + 1).state == Iterate(step, step(s).state, n).state
    ensures Iterate(step, s, n + 1).tracks == [step(s).track] + Iterate(step, step(s).state, n).tracks
    ensures Iterate(step, s, n + 1).calls == step(s).calls + Iterate(step, step(s).state, n).calls
  {
  }

  /** `Somes` of a non-empty sequence starts with its first element. */
  lemma SomesCons(ts: seq<Track>)
    requires ts != []
    ensures Somes(ts) == [Some(ts[0])] + Somes(ts[1..])
  {
  }

  // The proofs about runs are done for any operation that makes the one
  // step `next` (or `previous`) makes, stated by the predicates below; this
  // keeps the solver from unfolding `next` at every depth of a run.

  /** Without a loop, `step` takes the front track off the queue and returns it. */
  ghost predicate PopsFront(step: State -> Step) {
    forall x: State {:trigger step(x)} :: x.musicLoop == Loop.None && x.queue != [] ==>
      && step(x).track == Some(x.queue[0])
      && step(x).state.queue == x.queue[1..]
      && step(x).state.musicLoop == Loop.None
  }

  /** With the queue loop on, `step` moves the front track to the back and returns it. */
  ghost predicate RotatesFront(step: State -> Step) {
    forall x: State {:trigger step(x)} :: x.musicLoop == Loop.Queue && x.queue != [] ==>
      && step(x).track == Some(x.queue[0])
      && step(x).state.queue == x.queue[1..] + [x.queue[0]]
      && step(x).state.musicLoop == Loop.Queue
  }

  /** `step` appends what it returns to the history and keeps the last ten. */
  ghost predicate KeepsLastTen(step: State -> Step) {
    forall x: State {:trigger step(x)} :: Valid(x) ==>
      && Valid(step(x).state)
      && step(x).state.previous
         == LastN(x.previous + (if step(x).track.Some? then [step(x).track.value] else []), HistoryCapacity)
  }

  /** `step` moves the newest history entry to the front of the queue, returns it and reports nothing. */
  ghost predicate PopsHistory(step: State -> Step) {
    forall x: State {:trigger step(x)} :: x.previous != [] ==>
      && step(x).track == Some(x.previous[|x.previous| - 1])
      && step(x).state.queue == [x.previous[|x.previous| - 1]] + x.queue
      && step(x).state.previous == x.previous[..|x.previous| - 1]
      && step(x).state.playing == x.playing
      && step(x).calls == []
  }

  /** `next` makes the step `PopsFront` describes. */
  lemma NextPopsFront()
    ensures PopsFront(Next)
  {
    forall x: State | x.musicLoop == Loop.None && x.queue != []
      ensures Next(x).state.queue == x.queue[1..]
    {
      NextOnNonEmptyQueue(x);
    }
  }

  /** `next` makes the step `RotatesFront` describes. */
  lemma NextRotatesFront()
    ensures RotatesFront(Next)
  {
    forall x: State | x.musicLoop == Loop.Queue && x.queue != []
      ensures Next(x).state.queue == x.queue[1..] + [x.queue[0]]
    {
      NextOnNonEmptyQueue(x);
    }
  }

  /** `next` makes the step `KeepsLastTen` describes. */
  lemma NextKeepsLastTen()
    ensures KeepsLastTen(Next)
  {
    forall x: State | Valid(x)
      ensures Next(x).state.previous
        == LastN(x.previous + (if Next(x).track.Some? then [Next(x).track.value] else []), HistoryCapacity)
    {
      if x.queue == [] {
        assert x.previous + [] == x.previous;
      }
    }
  }

  /** `previous` makes the step `PopsHistory` describes. */
  lemma PreviousPopsHistory()
    ensures PopsHistory(Previous)
  {
  }

  /** A run of `|queue|` front-popping steps hands out the queue in order and empties it. */
  lemma {:induction false} IteratePopsFront(step: State -> Step, s: State)
    requires PopsFront(step) && s.musicLoop == Loop.None
    ensures Iterate(step, s, |s.queue|).tracks == Somes(s.queue)
    ensures Iterate(step, s, |s.queue|).state.queue == []
    decreases |s.queue|
  {
    if s.queue != [] {
      var n := step(s).state;
      IterateUnfold(step, s, |s.queue| - 1);
      IteratePopsFront(step, n);
      SomesCons(s.queue);
    }
  }

  /** Without a loop, `next` hands out the queue in order, then nothing. */
  lemma FifoWithoutLoop(s: State)
    requires s.musicLoop == Loop.None
    ensures Run(s, |s.queue|).tracks == Somes(s.queue)
    ensures Run(s, |s.queue|).state.queue == []
    ensures Next(Run(s, |s.queue|).state).track.None?
  {
    NextPopsFront();
    IteratePopsFront(Next, s);
  }

  /** A run of `k` rotating steps rotates the queue by `k`. */
  lemma {:induction false} IterateRotates(step: State -> Step, s: State, k: nat)
    requires RotatesFront(step) && s.musicLoop == Loop.Queue && k <= |s.queue|
    ensures Iterate(step, s, k).state.queue == s.queue[k..] + s.queue[..k]
    ensures Iterate(step, s, k).state.musicLoop == Loop.Queue
    decreases k
  {
    var q := s.queue;
    if k == 0 {
      assert q[0..] + q[..0] == q;
    } else {
      var n := step(s).state;
      assert n.queue == q[1..] + [q[0]] && n.musicLoop == Loop.Queue;
      var r := Iterate(step, n, k - 1).state.queue;
      assert Iterate(step, s, k).state == Iterate(step, n, k - 1).state by {
        IterateUnfold(step, s, k - 1);
      }
      assert r == n.queue[k - 1..] + n.queue[..k - 1] && Iterate(step, n, k - 1).state.musicLoop == Loop.Queue by {
        IterateRotates(step, n, k - 1);
      }
      assert n.queue[..k - 1] == q[1..k];
      assert n.queue[k - 1..] == q[k..] + [q[0]];
      assert q[..k] == [q[0]] + q[1..k];
      assert r == (q[k..] + [q[0]]) + q[1..k];
    }
  }

  /** A run of `k` rotating steps returns the first `k` tracks of the queue. */
  lemma {:induction false} IterateRotatesPlays(step: State -> Step, s: State, k: nat)
    requires RotatesFront(step) && s.musicLoop == Loop.Queue && k <= |s.queue|
    ensures Iterate(step, s, k).tracks == Somes(s.queue[..k])
    decreases k
  {
    var q := s.queue;
    if k > 0 {
      var first := step(s);
      var n := first.state;
      assert first.track == Some(q[0]);
      assert n.queue == q[1..] + [q[0]] && n.musicLoop == Loop.Queue;
      IterateUnfold(step, s, k - 1);
      IterateRotatesPlays(step, n, k - 1);
      assert n.queue[..k - 1] == q[1..k];
      SomesCons(q[..k]);
      assert q[..k][1..] == q[1..k];
    }
  }

  /** With the queue loop on, `k` calls of `next` return the first `k` tracks and rotate the queue by `k`. */
  lemma QueueLoopRotates(s: State, k: nat)
    requires s.musicLoop == Loop.Queue && k <= |s.queue|
    ensures Run(s, k).tracks == Somes(s.queue[..k])
    ensures Run(s, k).state.queue == s.queue[k..] + s.queue[..k]
  {
    NextRotatesFront();
    IterateRotates(Next, s, k);
    IterateRotatesPlays(Next, s, k);
  }

  /** With the queue loop on, a pass over the whole queue restores it and plays each track once. */
  lemma QueueLoopRestoresQueue(s: State)
    requires s.musicLoop == Loop.Queue
    ensures Run(s, |s.queue|).state.queue == s.queue
    ensures Run(s, |s.queue|).state.musicLoop == Loop.Queue
    ensures Run(s, |s.queue|).tracks == Somes(s.queue)
  {
    NextRotatesFront();
    IterateRotates(Next, s, |s.queue|);
    IterateRotatesPlays(Next, s, |s.queue|);
    assert s.queue[..|s.queue|] == s.queue;
    assert s.queue[|s.queue|..] + s.queue[..|s.queue|] == s.queue;
  }

  /** With the queue loop on, two passes play the queue twice over. */
  lemma QueueLoopCycles(s: State)
    requires s.musicLoop == Loop.Queue
    ensures Run(s, 2 * |s.queue|).tracks == Somes(s.queue) + Somes(s.queue)
  {
    var n := |s.queue|;
    IterateSplits(Next, s, n, n);
    QueueLoopRestoresQueue(s);
    QueueLoopRestoresQueue(Run(s, n).state);
  }

  /** Queue loop over `[a, b]`: four calls of `next` return a, b, a, b. */
  lemma QueueLoopTwoTracks(s: State, a: Track, b: Track)
    requires s.musicLoop == Loop.Queue && s.queue == [a, b]
    ensures Run(s, 4).tracks == [Some(a), Some(b), Some(a), Some(b)]
  {
    QueueLoopCycles(s);
  }

  /** With the track loop on, `next` returns the front track every time and the queue never changes. */
  lemma {:induction false} TrackLoopRepeats(s: State, n: nat)
    requires s.musicLoop == Loop.Track && s.queue != []
    ensures forall i :: 0 <= i < n ==> Run(s, n).tracks[i] == Some(s.queue[0])
    ensures Run(s, n).state.queue == s.queue
    ensures n > 0 ==> Run(s, n).state.playing == Some(s.queue[0])
    decreases n
  {
    if n > 0 {
      var m := Next(s).state;
      assert m.queue == [s.queue[0]] + s.queue[1..] == s.queue;
      TrackLoopRepeats(m, n - 1);
    }
  }

  /** Keeping the last ten of the last ten plus more is keeping the last ten of everything. */
  lemma LastNOfLastN(a: seq<Track>, b: seq<Track>, n: nat)
    ensures LastN(LastN(a, n) + b, n) == LastN(a + b, n)
  {
    if |a| > n {
      var x := a[|a| - n..];
      var l := LastN(x + b, n);
      var r := LastN(a + b, n);
      assert |l| == |r| == n;
      forall i | 0 <= i < n ensures l[i] == r[i] {
        assert l[i] == (x + b)[|b| + i];
        assert r[i] == (a + b)[|a| + |b| - n + i];
      }
    }
  }

  /** A run of history-keeping steps leaves the last ten of the old history and of what the run returned. */
  lemma {:induction false} IterateKeepsLastTen(step: State -> Step, s: State, n: nat)
    requires KeepsLastTen(step) && Valid(s)
    ensures Iterate(step, s, n).state.previous
         == LastN(s.previous + Played(Iterate(step, s, n).tracks), HistoryCapacity)
    decreases n
  {
    if n == 0 {
      assert s.previous + [] == s.previous;
    } else {
      var first := step(s);
      var head := if first.track.Some? then [first.track.value] else [];
      var rest := Iterate(step, first.state, n - 1);
      var later := Played(rest.tracks);
      var whole := Iterate(step, s, n);
      assert whole.state == rest.state && whole.tracks == [first.track] + rest.tracks by {
        IterateUnfold(step, s, n - 1);
      }
      assert Valid(first.state) && first.state.previous == LastN(s.previous + head, HistoryCapacity);
      assert rest.state.previous == LastN(first.state.previous + later, HistoryCapacity) by {
        IterateKeepsLastTen(step, first.state, n - 1);
      }
      assert Played(whole.tracks) == head + later by {
        PlayedCons(first.track, rest.tracks);
      }
      calc {
        whole.state.previous;
        LastN(LastN(s.previous + head, HistoryCapacity) + later, HistoryCapacity);
        { LastNOfLastN(s.previous + head, later, HistoryCapacity); }
        LastN(s.previous + head + later, HistoryCapacity);
        { assert s.previous + head + later == s.previous + (head + later); }
        LastN(s.previous + Played(whole.tracks), HistoryCapacity);
      }
    }
  }

  /** `Played` of a sequence with one more call in front. */
  lemma PlayedCons(t: Option<Track>, rs: seq<Option<Track>>)
    ensures Played([t] + rs) == (if t.Some? then [t.value] else []) + Played(rs)
  {
    assert ([t] + rs)[1..] == rs;
  }

  /**
   * After any number of calls of `next`, the history holds exactly the
   * ten most recently started tracks, oldest first.
   */
  lemma HistoryIsLastTenStarted(s: State, n: nat)
    requires Valid(s)
    ensures Run(s, n).state.previous == LastN(s.previous + Played(Run(s, n).tracks), HistoryCapacity)
  {
    NextKeepsLastTen();
    IterateKeepsLastTen(Next, s, n);
  }

  /** A run of history-popping steps as long as the history moves it, oldest first, before the queue. */
  lemma {:induction false} IteratePopsHistoryQueue(step: State -> Step, s: State)
    requires PopsHistory(step)
    ensures Iterate(step, s, |s.previous|).state.queue == s.previous + s.queue
    decreases |s.previous|
  {
    if s.previous == [] {
      assert [] + s.queue == s.queue;
    } else {
      var h := s.previous;
      var t := h[|h| - 1];
      var p := step(s).state;
      assert p.previous == h[..|h| - 1] && p.queue == [t] + s.queue;
      assert Iterate(step, s, |h|).state == Iterate(step, p, |h| - 1).state by {
        IterateUnfold(step, s, |h| - 1);
      }
      assert Iterate(step, p, |h| - 1).state.queue == h[..|h| - 1] + ([t] + s.queue) by {
        IteratePopsHistoryQueue(step, p);
      }
      assert h[..|h| - 1] + ([t] + s.queue) == h + s.queue;
    }
  }

  /** A run of history-popping steps as long as the history empties it, keeps the playing track and reports nothing. */
  lemma {:induction false} IteratePopsHistoryKeeps(step: State -> Step, s: State)
    requires PopsHistory(step)
    ensures var r := Iterate(step, s, |s.previous|);
      r.state.previous == [] && r.state.playing == s.playing && r.calls == []
    decreases |s.previous|
  {
    if s.previous != [] {
      var h := s.previous;
      var first := step(s);
      var p := first.state;
      var rest := Iterate(step, p, |h| - 1);
      assert first.calls == [] && p.previous == h[..|h| - 1] && p.playing == s.playing;
      assert Iterate(step, s, |h|).state == rest.state && Iterate(step, s, |h|).calls == first.calls + rest.calls by {
        IterateUnfold(step, s, |h| - 1);
      }
      assert rest.state.previous == [] && rest.state.playing == p.playing && rest.calls == [] by {
        IteratePopsHistoryKeeps(step, p);
      }
    }
  }

  /** A run of history-popping steps as long as the history returns it newest first. */
  lemma {:induction false} IteratePopsHistoryNewestFirst(step: State -> Step, s: State)
    requires PopsHistory(step)
    ensures Iterate(step, s, |s.previous|).tracks == Somes(Reversed(s.previous))
    decreases |s.previous|
  {
    if s.previous != [] {
      var h := s.previous;
      var first := step(s);
      var p := first.state;
      var rest := Iterate(step, p, |h| - 1);
      assert first.track == Some(h[|h| - 1]) && p.previous == h[..|h| - 1];
      assert Iterate(step, s, |h|).tracks == [first.track] + rest.tracks by {
        IterateUnfold(step, s, |h| - 1);
      }
      assert rest.tracks == Somes(Reversed(h[..|h| - 1])) by {
        IteratePopsHistoryNewestFirst(step, p);
      }
      assert Reversed(h) == [h[|h| - 1]] + Reversed(h[..|h| - 1]);
    }
  }

  /**
   * Calling `previous` once per history entry hands the history back newest
   * first, leaves it empty and puts it, oldest first, before the queue.
   */
  lemma RewindWholeHistory(s: State)
    ensures var r := Rewind(s, |s.previous|);
      && r.tracks == Somes(Reversed(s.previous))
      && r.state.queue == s.previous + s.queue
      && r.state.previous == []
      && r.state.playing == s.playing
      && r.calls == []
  {
    PreviousPopsHistory();
    IteratePopsHistoryQueue(Previous, s);
    IteratePopsHistoryKeeps(Previous, s);
    IteratePopsHistoryNewestFirst(Previous, s);
  }

  /** While a track is playing, each `add` only appends and reports `QueueAdded`. */
  lemma {:induction false} AddAllAppends(s: State, ts: seq<Track>)
    requires s.playing.Some?
    ensures AddAll(s, ts).state == s.(queue := s.queue + ts)
    ensures s.handler.None? ==> AddAll(s, ts).calls == []
    ensures s.handler.Some? ==> |AddAll(s, ts).calls| == |ts|
    ensures s.handler.Some? ==> forall i :: 0 <= i < |ts| ==>
      AddAll(s, ts).calls[i] == Call(s.handler.value, OnQueueAdded(ts[i]))
    decreases |ts|
  {
    if ts == [] {
      assert s.queue + [] == s.queue;
    } else {
      var first := Add(s, ts[0]);
      assert first.state == s.(queue := s.queue + [ts[0]]);
      AddAllAppends(first.state, ts[1..]);
      assert s.queue + [ts[0]] + ts[1..] == s.queue + ts;
    }
  }

  /**
   * FIFO order: with no loop and a track playing, tracks added one by one
   * come out of `next` in the order they were added, after what was
   * already queued, and then `next` returns nothing.
   */
  lemma FifoAfterAdds(s: State, ts: seq<Track>)
    requires s.playing.Some? && s.musicLoop == Loop.None
    ensures var added := AddAll(s, ts).state;
      && Run(added, |s.queue| + |ts|).tracks == Somes(s.queue + ts)
      && Next(Run(added, |s.queue| + |ts|).state).track.None?
  {
    var added := AddAll(s, ts).state;
    assert added == s.(queue := s.queue + ts) by {
      AddAllAppends(s, ts);
    }
    var n := |s.queue| + |ts|;
    assert n == |added.queue|;
    assert Run(added, n).tracks == Somes(s.queue + ts) && Next(Run(added, n).state).track.None? by {
      FifoWithoutLoop(added);
    }
  }

  /**
   * `add` on an idle manager need not start the added track: after the
   * queue ran dry, `previous` queues the last track again without playing
   * it, and the next `add` starts that one.
   */
  lemma AddMayStartAnotherTrack(u: Track, t: Track, h: EventHandler)
    requires u != t
    ensures var s0 := Default().(handler := Some(h));
      var s1 := Add(s0, u).state;
      var s2 := Next(s1).state;
      var s3 := Previous(s2).state;
      var s4 := Add(s3, t);
      && s1.playing == Some(u) && s2.playing.None? && s3.playing.None?
      && s4.state.playing == Some(u)
      && s4.calls == [Call(h, OnQueueAdded(t)), Call(h, OnTrackStart(u))]
  {
    var s0 := Default().(handler := Some(h));
    var s1 := Add(s0, u).state;
    assert s1.queue == [] && s1.previous == [u];
    var s2 := Next(s1).state;
    assert s2.queue == [] && s2.previous == [u];
    var s3 := Previous(s2).state;
    assert s3.queue == [u] && s3.playing.None?;
  }
}
