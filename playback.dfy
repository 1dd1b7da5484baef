/**
 The story playback engine of src/hooks/use-stories.ts, as a state machine
 over values: one function per operation of the hook, the interval tick as
 one more event, and lemmas about every sequence of events.

 Progress is kept as the number of 100 ms ticks since the story started.
 The hook adds `100 / (duration / 100)` percent per tick, so after `t` ticks
 its percentage is, in exact arithmetic, `t * 10000 / duration`;
 `ProgressPercent` gives that exact value, and "reaches 100 %" becomes
 `(t + 1) * 100 >= duration`. The hook's floating-point sum can fall just
 short of 100 there and advance one tick later.
 */
module Playback {
  import opened Wrappers
  import opened Stories

  /** Used when a story has no duration, or a duration of 0 (`|| 5000`). */
  const DefaultDuration: nat := 5000
  /** Period of the progress interval, in milliseconds. */
  const TickMs: nat := 100

  /** The duration of the story at `index`: `stories[index]?.duration || 5000`.
      An index outside the catalogue has no story, hence the default. */
  function Duration(stories: seq<Story>, index: int): (d: nat)
    ensures d > 0
    ensures 0 <= index < |stories| && stories[index].duration.Some? && stories[index].duration.value > 0
            ==> d == stories[index].duration.value
    ensures d != DefaultDuration ==> 0 <= index < |stories| && stories[index].duration == Some(d)
  {
    if 0 <= index < |stories| && stories[index].duration.Some? && stories[index].duration.value != 0
    then stories[index].duration.value
    else DefaultDuration
  }

  /** The hook's state: `currentIndex`, `progress` (in ticks), `isPlaying`,
      `isLoading`, `preloadedImages` and the navigation lock `isNavigatingRef`. */
  datatype PlaybackState = PlaybackState(
    index: int,
    ticks: nat,
    playing: bool,
    loading: bool,
    preloaded: set<int>,
    navigating: bool)

  /** A transition's new state, and whether it called `onComplete`. */
  datatype Step = Step(state: PlaybackState, completed: bool)

  /** The state on mount. `initialIndex` is used as given, without clamping. */
  function Initial(initialIndex: int): (s: PlaybackState)
    ensures s.index == initialIndex && s.ticks == 0
    ensures s.playing && s.loading && !s.navigating
    ensures s.preloaded == {}
  {
    PlaybackState(initialIndex, 0, true, true, {}, false)
  }

  predicate InRange(stories: seq<Story>, s: PlaybackState) {
    0 <= s.index < |stories|
  }

  /** Progress stays below 100 %: the tick that would reach it starts over. */
  predicate BelowFull(stories: seq<Story>, s: PlaybackState) {
    s.ticks * TickMs < Duration(stories, s.index)
  }

  /** The hook's `progress` value, in percent. */
  function ProgressPercent(stories: seq<Story>, s: PlaybackState): (p: real)
    ensures BelowFull(stories, s) ==> 0.0 <= p < 100.0
  {
    var d := Duration(stories, s.index);
    QuotientBelow((s.ticks * 10000) as real, d as real, 100.0);
    (s.ticks * 10000) as real / d as real
  }

  lemma QuotientBelow(a: real, d: real, bound: real)
    requires d > 0.0
    ensures 0.0 <= a < bound * d ==> 0.0 <= a / d < bound
  {
  }

  /** One more tick adds `100 / (duration / 100)` percent, the step the
      interval's updater adds to `prev`. */
  lemma TickAddsStep(stories: seq<Story>, s: PlaybackState)
    ensures ProgressPercent(stories, s.(ticks := s.ticks + 1))
            == ProgressPercent(stories, s) + 100.0 / (Duration(stories, s.index) as real / 100.0)
  {
    var d := Duration(stories, s.index) as real;
    assert 100.0 / (d / 100.0) == 10000.0 / d;
    assert ((s.ticks + 1) * 10000) as real / d == (s.ticks * 10000) as real / d + 10000.0 / d;
  }

  /** The updater's test `newProgress >= 100` holds of the next tick exactly
      when the elapsed time reaches the duration. */
  lemma TickReachesFull(stories: seq<Story>, s: PlaybackState)
    ensures ProgressPercent(stories, s.(ticks := s.ticks + 1)) >= 100.0
            <==> (s.ticks + 1) * TickMs >= Duration(stories, s.index)
  {
    var n := Duration(stories, s.index);
    var m := (s.ticks + 1) * TickMs;
    assert (s.ticks + 1) * 10000 == 100 * m;
    QuotientAtLeast((100 * m) as real, n as real, 100.0);
    assert 100.0 * n as real == (100 * n) as real;
  }

  lemma QuotientAtLeast(a: real, d: real, bound: real)
    requires d > 0.0
    ensures a / d >= bound <==> a >= bound * d
  {
    var q := a / d;
    assert q * d == a;
    if q >= bound {
      assert (q - bound) * d >= 0.0;
    } else {
      assert (bound - q) * d > 0.0;
    }
  }

  /** What a successful `nextStory` or `previousStory` does: move to
      `target`, restart progress, play, set the lock, and show the loading
      state unless `target` is already preloaded. */
  function Navigate(s: PlaybackState, target: int): (r: PlaybackState)
    ensures r.index == target && r.ticks == 0 && r.playing && r.navigating
    ensures r.loading <==> target !in s.preloaded
    ensures r.preloaded == s.preloaded
  {
    s.(index := target, ticks := 0, playing := true,
       loading := target !in s.preloaded, navigating := true)
  }

  /** `nextStory`: ignored while locked; moves forward below the last index;
      at (or beyond) the last index calls `onComplete` and changes nothing. */
  function NextStory(stories: seq<Story>, s: PlaybackState): (r: Step)
    ensures r.completed <==> !s.navigating && s.index >= |stories| - 1
    ensures r.state.index != s.index <==> !s.navigating && s.index < |stories| - 1
    ensures r.state.index != s.index ==> r.state == Navigate(s, s.index + 1)
    ensures r.state.index == s.index ==> r.state == s
  {
    if s.navigating then Step(s, false)
    else if s.index < |stories| - 1 then Step(Navigate(s, s.index + 1), false)
    else Step(s, true)
  }

  /** `previousStory`: ignored while locked or at index 0 (or below);
      otherwise moves back. It never calls `onComplete`. */
  function PreviousStory(s: PlaybackState): (r: PlaybackState)
    ensures r.index != s.index <==> !s.navigating && s.index > 0
    ensures r.index != s.index ==> r == Navigate(s, s.index - 1)
    ensures r.index == s.index ==> r == s
  {
    if s.navigating then s
    else if s.index > 0 then Navigate(s, s.index - 1)
    else s
  }

  /** `togglePlay`: flips playing, whatever the lock. */
  function TogglePlay(s: PlaybackState): (r: PlaybackState)
    ensures r.playing != s.playing
    ensures r.(playing := s.playing) == s
  {
    s.(playing := !s.playing)
  }

  /** `pauseStory`. */
  function PauseStory(s: PlaybackState): (r: PlaybackState)
    ensures !r.playing && r.(playing := s.playing) == s
  {
    s.(playing := false)
  }

  /** `resumeStory`. */
  function ResumeStory(s: PlaybackState): (r: PlaybackState)
    ensures r.playing && r.(playing := s.playing) == s
  {
    s.(playing := true)
  }

  /** `handleImageLoad`, the current image's `onLoad`: stop loading and
      remember the current index as preloaded. */
  function HandleImageLoad(s: PlaybackState): (r: PlaybackState)
    ensures !r.loading
    ensures s.index in r.preloaded && s.preloaded <= r.preloaded
    ensures forall i :: i in r.preloaded && i !in s.preloaded ==> i == s.index
    ensures r.(loading := s.loading, preloaded := s.preloaded) == s
  {
    s.(loading := false, preloaded := s.preloaded + {s.index})
  }

  /** How a `preloadImage(index)` promise resolves: an index outside the
      catalogue resolves at once, a failed load resolves, and only a
      successful load of an index in range adds it to the set. */
  function PreloadSettled(stories: seq<Story>, s: PlaybackState, index: int, loaded: bool): (r: PlaybackState)
    ensures index in r.preloaded <==> index in s.preloaded || (loaded && 0 <= index < |stories|)
    ensures forall i :: i != index ==> (i in r.preloaded <==> i in s.preloaded)
    ensures r.(preloaded := s.preloaded) == s
  {
    if 0 <= index < |stories| && loaded then s.(preloaded := s.preloaded + {index}) else s
  }

  /** The 100 ms timer that clears the lock after a navigation. */
  function ReleaseLock(s: PlaybackState): (r: PlaybackState)
    ensures !r.navigating && r.(navigating := s.navigating) == s
  {
    s.(navigating := false)
  }

  /** The progress interval exists only while playing and not loading. */
  predicate TimerRunning(s: PlaybackState) {
    s.playing && !s.loading
  }

  /** One firing of the progress interval. Progress grows by one tick; once
      it reaches 100 % it restarts at 0 and `nextStory` runs (which may be
      locked out, or may call `onComplete`). */
  function IntervalTick(stories: seq<Story>, s: PlaybackState): (r: Step)
    ensures !TimerRunning(s) ==> r == Step(s, false)
    ensures TimerRunning(s) && (s.ticks + 1) * TickMs < Duration(stories, s.index)
            ==> r == Step(s.(ticks := s.ticks + 1), false)
    ensures TimerRunning(s) && (s.ticks + 1) * TickMs >= Duration(stories, s.index)
            ==> r == NextStory(stories, s.(ticks := 0))
    ensures BelowFull(stories, s) ==> BelowFull(stories, r.state)
  {
    if !TimerRunning(s) then
      Step(s, false)
    else if (s.ticks + 1) * TickMs >= Duration(stories, s.index) then
      NextStory(stories, s.(ticks := 0))
    else
      Step(s.(ticks := s.ticks + 1), false)
  }

  /** The indices `preloadAdjacent` asks `preloadImage` for, in its order:
      the current one, the next one, the previous one, skipping any already
      preloaded. The current index is not range-checked here; `preloadImage`
      resolves an out-of-range request at once. */
  function PreloadRequests(stories: seq<Story>, s: PlaybackState): (r: seq<int>)
    ensures forall k :: 0 <= k < |r| ==> r[k] !in s.preloaded
    ensures forall a, b :: 0 <= a < b < |r| ==> r[a] != r[b]
  {
    (if s.index !in s.preloaded then [s.index] else [])
    + (if s.index + 1 < |stories| && s.index + 1 !in s.preloaded then [s.index + 1] else [])
    + (if s.index - 1 >= 0 && s.index - 1 !in s.preloaded then [s.index - 1] else [])
  }

  /** For an index in range the requests are exactly the current index and its
      neighbours that lie in the catalogue, minus those already preloaded. */
  lemma PreloadRequestsExact(stories: seq<Story>, s: PlaybackState)
    requires InRange(stories, s)
    ensures forall j :: j in PreloadRequests(stories, s)
                <==> s.index - 1 <= j <= s.index + 1 && 0 <= j < |stories| && j !in s.preloaded
  {
    var r := PreloadRequests(stories, s);
    forall j | s.index - 1 <= j <= s.index + 1 && 0 <= j < |stories| && j !in s.preloaded
      ensures j in r
    {
      if j == s.index {
        assert r[0] == j;
      } else if j == s.index + 1 {
        var k := if s.index in s.preloaded then 0 else 1;
        assert r[k] == j;
      } else {
        assert j == s.index - 1;
        var k := (if s.index in s.preloaded then 0 else 1)
                 + (if s.index + 1 < |stories| && s.index + 1 !in s.preloaded then 1 else 0);
        assert r[k] == j;
      }
    }
  }

  /** The events that drive the hook: its operations, the two timers and the
      two kinds of image completion. */
  datatype Event =
    | Next
    | Previous
    | Toggle
    | Pause
    | Resume
    | CurrentImageLoaded
    | ImageSettled(target: int, loaded: bool)
    | Tick
    | Unlock

  function Apply(stories: seq<Story>, s: PlaybackState, e: Event): Step {
    match e
    case Next => NextStory(stories, s)
    case Previous => Step(PreviousStory(s), false)
    case Toggle => Step(TogglePlay(s), false)
    case Pause => Step(PauseStory(s), false)
    case Resume => Step(ResumeStory(s), false)
    case CurrentImageLoaded => Step(HandleImageLoad(s), false)
    case ImageSettled(i, ok) => Step(PreloadSettled(stories, s, i, ok), false)
    case Tick => IntervalTick(stories, s)
    case Unlock => Step(ReleaseLock(s), false)
  }

  /** The state after a sequence of events, and how often `onComplete` ran. */
  datatype Outcome = Outcome(state: PlaybackState, completions: nat)

  function Run(stories: seq<Story>, s: PlaybackState, events: seq<Event>): Outcome
    decreases |events|
  {
    if events == [] then Outcome(s, 0)
    else
      var step := Apply(stories, s, events[0]);
      var rest := Run(stories, step.state, events[1..]);
      Outcome(rest.state, rest.completions + if step.completed then 1 else 0)
  }

  /** From an index in range, no sequence of events leaves the catalogue. */
  lemma {:induction false} RunStaysInRange(stories: seq<Story>, s: PlaybackState, events: seq<Event>)
    requires InRange(stories, s)
    ensures InRange(stories, Run(stories, s, events).state)
    decreases |events|
  {
    if events != [] {
      var step := Apply(stories, s, events[0]);
      assert InRange(stories, step.state);
      RunStaysInRange(stories, step.state, events[1..]);
    }
  }

  /** A session opened on a story of the catalogue stays on one. */
  lemma SessionStaysInRange(stories: seq<Story>, initialIndex: int, events: seq<Event>)
    requires 0 <= initialIndex < |stories|
    ensures InRange(stories, Run(stories, Initial(initialIndex), events).state)
  {
    RunStaysInRange(stories, Initial(initialIndex), events);
  }

  /** Progress is below 100 % after every sequence of events. */
  lemma {:induction false} RunStaysBelowFull(stories: seq<Story>, s: PlaybackState, events: seq<Event>)
    requires BelowFull(stories, s)
    ensures BelowFull(stories, Run(stories, s, events).state)
    decreases |events|
  {
    if events != [] {
      var step := Apply(stories, s, events[0]);
      assert BelowFull(stories, step.state);
      RunStaysBelowFull(stories, step.state, events[1..]);
    }
  }

  /** No event ever removes an index from the preloaded set. */
  lemma {:induction false} RunGrowsPreloaded(stories: seq<Story>, s: PlaybackState, events: seq<Event>)
    ensures s.preloaded <= Run(stories, s, events).state.preloaded
    decreases |events|
  {
    if events != [] {
      var step := Apply(stories, s, events[0]);
      assert s.preloaded <= step.state.preloaded;
      RunGrowsPreloaded(stories, step.state, events[1..]);
    }
  }

  /** While the lock is held (no `Unlock` event arrives), neither a key, a
      tap, a click nor the timer moves the index or completes the session. */
  lemma {:induction false} LockedRunKeepsIndex(stories: seq<Story>, s: PlaybackState, events: seq<Event>)
    requires s.navigating
    requires forall k :: 0 <= k < |events| ==> events[k] != Unlock
    ensures Run(stories, s, events).state.index == s.index
    ensures Run(stories, s, events).state.navigating
    ensures Run(stories, s, events).completions == 0
    decreases |events|
  {
    if events != [] {
      var step := Apply(stories, s, events[0]);
      assert step.state.index == s.index && step.state.navigating && !step.completed;
      LockedRunKeepsIndex(stories, step.state, events[1..]);
    }
  }

  /** Two `nextStory` calls inside the cooldown move the index only once. */
  lemma DoubleNextMovesOnce(stories: seq<Story>, s: PlaybackState)
    requires !s.navigating && s.index < |stories| - 1
    ensures Run(stories, s, [Next, Next]).state.index == s.index + 1
    ensures Run(stories, s, [Next, Next]).completions == 0
  {
    var first := NextStory(stories, s).state;
    LockedRunKeepsIndex(stories, first, [Next]);
    assert [Next, Next][1..] == [Next];
  }

  /** At the last story, every unlocked `nextStory` calls `onComplete` once
      and leaves the state as it was. */
  lemma {:induction false} RepeatedNextAtLast(stories: seq<Story>, s: PlaybackState, events: seq<Event>)
    requires s.index == |stories| - 1 && !s.navigating
    requires forall k :: 0 <= k < |events| ==> events[k] == Next
    ensures Run(stories, s, events) == Outcome(s, |events|)
    decreases |events|
  {
    if events != [] {
      assert Apply(stories, s, events[0]) == Step(s, true);
      RepeatedNextAtLast(stories, s, events[1..]);
    }
  }

  /** `handleImageLoad` twice is `handleImageLoad` once. */
  lemma HandleImageLoadIdempotent(s: PlaybackState)
    ensures HandleImageLoad(HandleImageLoad(s)) == HandleImageLoad(s)
  {
  }

  /** Number of ticks a story of duration `d` plays before advancing. */
  function TicksToAdvance(d: nat): (n: nat)
    requires d > 0
    ensures n >= 1 && d <= n * TickMs < d + TickMs
  {
    (d + TickMs - 1) / TickMs
  }

  /** `k` firings of the progress interval. */
  function Ticks(stories: seq<Story>, s: PlaybackState, k: nat): PlaybackState
    decreases k
  {
    if k == 0 then s else IntervalTick(stories, Ticks(stories, s, k - 1)).state
  }

  lemma {:induction false} TicksAccumulate(stories: seq<Story>, s: PlaybackState, k: nat)
    requires TimerRunning(s)
    requires (s.ticks + k) * TickMs < Duration(stories, s.index)
    ensures Ticks(stories, s, k) == s.(ticks := s.ticks + k)
    decreases k
  {
    if k > 0 {
      TicksAccumulate(stories, s, k - 1);
    }
  }

  /** Autoplay: a story that starts at 0 and plays without interruption
      stays put for `TicksToAdvance(d) - 1` firings of the interval, and the
      next firing runs `nextStory`; `TicksToAdvance` places that firing
      between `d` and `d + 100` ms of interval time. */
  lemma AutoplayAfterDuration(stories: seq<Story>, s: PlaybackState)
    requires TimerRunning(s) && s.ticks == 0
    ensures var n := TicksToAdvance(Duration(stories, s.index));
            && (forall k :: 0 <= k < n ==> Ticks(stories, s, k) == s.(ticks := k))
            && IntervalTick(stories, Ticks(stories, s, n - 1)) == NextStory(stories, s)
  {
    var d := Duration(stories, s.index);
    var n := TicksToAdvance(d);
    forall k | 0 <= k < n ensures Ticks(stories, s, k) == s.(ticks := k) {
      TicksAccumulate(stories, s, k);
    }
    assert Ticks(stories, s, n - 1) == s.(ticks := n - 1);
    assert s.(ticks := n - 1).(ticks := 0) == s;
  }
}
