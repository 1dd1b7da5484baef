/**
 The decisions of `StoryViewer` (src/components/stories/story-viewer.tsx):
 which intent a key or a click stands for, how the engine's state becomes
 the flags of each progress bar, and when the chevrons, the counter and
 the pause overlay show. The component keeps no state of its own; every
 function here reads the engine's state.
 */
module StoryViewer {
  import opened Wrappers
  import MobileNavigation
  import ProgressBar
  import Playback
  import Stories

  /** What the viewer asks of the engine, or of its parent for `Close`. */
  datatype Intent = PreviousStory | NextStory | TogglePlay | Close

  /** The outcome of a key press: the intent, and whether the browser's
      default action is suppressed. */
  datatype KeyResponse = KeyResponse(intent: Option<Intent>, preventDefault: bool)

  /** `handleKeyDown`. */
  function HandleKeyDown(key: string): (r: KeyResponse)
    ensures r.intent == Some(PreviousStory) <==> key == "ArrowLeft"
    ensures r.intent == Some(NextStory) <==> key == "ArrowRight" || key == " "
    ensures r.intent == Some(Close) <==> key == "Escape"
    ensures r.intent == Some(TogglePlay) <==> key == "p" || key == "P"
    ensures r.preventDefault <==> r.intent.Some? && r.intent != Some(Close)
  {
    if key == "ArrowLeft" then KeyResponse(Some(PreviousStory), true)
    else if key == "ArrowRight" || key == " " then KeyResponse(Some(NextStory), true)
    else if key == "Escape" then KeyResponse(Some(Close), false)
    else if key == "p" || key == "P" then KeyResponse(Some(TogglePlay), true)
    else KeyResponse(None, false)
  }

  /** The `onClick` of the three zones. */
  function ClickIntent(area: MobileNavigation.Area): (i: Intent)
    ensures i == PreviousStory <==> area == MobileNavigation.Left
    ensures i == TogglePlay <==> area == MobileNavigation.Middle
    ensures i == NextStory <==> area == MobileNavigation.Right
  {
    match area
    case Left => PreviousStory
    case Middle => TogglePlay
    case Right => NextStory
  }

  /** The callbacks handed to the touch hook: `onNext: nextStory`,
      `onPrevious: previousStory`, `onTogglePlay: togglePlay`. */
  function TouchIntent(c: MobileNavigation.Callback): (i: Intent)
    ensures i != Close
    ensures i == PreviousStory <==> c == MobileNavigation.OnPrevious
    ensures i == NextStory <==> c == MobileNavigation.OnNext
    ensures i == TogglePlay <==> c == MobileNavigation.OnTogglePlay
  {
    match c
    case OnPrevious => PreviousStory
    case OnNext => NextStory
    case OnTogglePlay => TogglePlay
  }

  /** A tap on a zone has the effect of a click on it. */
  lemma TapActsLikeClick(dx: real, dy: real, dt: int, area: MobileNavigation.Area)
    requires MobileNavigation.IsTap(dx, dy, dt)
    ensures MobileNavigation.Decide(dx, dy, dt, area).Some?
    ensures TouchIntent(MobileNavigation.Decide(dx, dy, dt, area).value) == ClickIntent(area)
  {
    MobileNavigation.TapExcludesSwipe(dx, dy, dt);
  }

  /** The engine operation an intent calls; `Close` goes to `onClose`. */
  function EngineEvent(i: Intent): (e: Option<Playback.Event>)
    ensures e == None <==> i == Close
    ensures e == Some(Playback.Previous) <==> i == PreviousStory
    ensures e == Some(Playback.Next) <==> i == NextStory
    ensures e == Some(Playback.Toggle) <==> i == TogglePlay
  {
    match i
    case PreviousStory => Some(Playback.Previous)
    case NextStory => Some(Playback.Next)
    case TogglePlay => Some(Playback.Toggle)
    case Close => None
  }

  /** Keys are not suppressed by the viewer itself: while the engine's lock
      is held, every key still reaches the engine, no key moves the index
      or completes the session, `p`/`P` still toggles and `Escape` still
      closes. */
  lemma KeysWhileLocked(stories: seq<Stories.Story>, s: Playback.PlaybackState, key: string)
    requires s.navigating
    ensures var r := HandleKeyDown(key);
            r.intent.Some? && EngineEvent(r.intent.value).Some? ==>
              var step := Playback.Apply(stories, s, EngineEvent(r.intent.value).value);
              && step.state.index == s.index
              && !step.completed
              && (key == "p" || key == "P" ==> step.state.playing != s.playing)
    ensures key == "Escape" ==> HandleKeyDown(key).intent == Some(Close)
  {
  }

  /** The props of bar `index`. */
  datatype BarProps = BarProps(progress: real, isActive: bool, isCompleted: bool)

  function BarPropsAt(index: int, currentIndex: int, progress: real): (b: BarProps)
    ensures b.isActive <==> index == currentIndex
    ensures b.isCompleted <==> index < currentIndex
    ensures index != currentIndex ==> b.progress == 0.0
    ensures index == currentIndex ==> b.progress == progress
  {
    BarProps(if index == currentIndex then progress else 0.0, index == currentIndex, index < currentIndex)
  }

  /** The width drawn for bar `index`. */
  function BarWidth(index: int, currentIndex: int, progress: real): (w: real)
    ensures 0.0 <= progress <= 100.0 ==> 0.0 <= w <= 100.0
    ensures index != currentIndex ==> w == 0.0 || w == 100.0
  {
    var b := BarPropsAt(index, currentIndex, progress);
    ProgressBar.Width(b.progress, b.isActive, b.isCompleted)
  }

  /** Bars before the current one are full, the current one shows the
      progress, later ones are empty; so the widths never increase from
      left to right. */
  lemma BarWidths(index: int, currentIndex: int, progress: real)
    ensures index < currentIndex ==> BarWidth(index, currentIndex, progress) == 100.0
    ensures index == currentIndex ==> BarWidth(index, currentIndex, progress) == progress
    ensures index > currentIndex ==> BarWidth(index, currentIndex, progress) == 0.0
  {
  }

  lemma BarsNonIncreasing(i: int, j: int, currentIndex: int, progress: real)
    requires 0.0 <= progress <= 100.0 && i <= j
    ensures BarWidth(i, currentIndex, progress) >= BarWidth(j, currentIndex, progress)
  {
    BarWidths(i, currentIndex, progress);
    BarWidths(j, currentIndex, progress);
  }

  /** The bars the viewer draws for an engine: the current bar's width is
      the engine's progress, which is below 100 %. */
  lemma EngineBars(stories: seq<Stories.Story>, s: Playback.PlaybackState, index: int)
    requires Playback.BelowFull(stories, s)
    ensures var w := BarWidth(index, s.index, Playback.ProgressPercent(stories, s));
            && 0.0 <= w <= 100.0
            && (index == s.index ==> w < 100.0)
  {
    BarWidths(index, s.index, Playback.ProgressPercent(stories, s));
  }

  predicate ShowLeftChevron(currentIndex: int) {
    currentIndex > 0
  }

  predicate ShowRightChevron(currentIndex: int, totalStories: int) {
    currentIndex < totalStories - 1
  }

  /** With the lock free, the left chevron shows exactly when going back
      would move, and the right one exactly when going on would move rather
      than close the viewer. */
  lemma ChevronsMatchNavigation(stories: seq<Stories.Story>, s: Playback.PlaybackState)
    requires !s.navigating
    ensures ShowLeftChevron(s.index) <==> Playback.PreviousStory(s).index != s.index
    ensures ShowRightChevron(s.index, |stories|) <==> Playback.NextStory(stories, s).state.index != s.index
    ensures !ShowRightChevron(s.index, |stories|) <==> Playback.NextStory(stories, s).completed
  {
  }

  /** The counter, `currentIndex + 1 / totalStories`. */
  datatype Counter = Counter(position: int, total: int)

  function CounterAt(currentIndex: int, totalStories: int): (c: Counter)
    ensures c.total == totalStories && c.position - 1 == currentIndex
    ensures 0 <= currentIndex < totalStories ==>
              && 1 <= c.position <= c.total
              && (c.position == c.total <==> !ShowRightChevron(currentIndex, totalStories))
              && (c.position == 1 <==> !ShowLeftChevron(currentIndex))
  {
    Counter(currentIndex + 1, totalStories)
  }

  predicate PauseOverlayVisible(isPlaying: bool, isLoading: bool) {
    !isPlaying && !isLoading
  }

  /** The pause overlay shows exactly when the timer is stopped by the user
      rather than by loading: progress is then frozen, and one toggle
      restarts it. */
  lemma PauseOverlayMeansPaused(stories: seq<Stories.Story>, s: Playback.PlaybackState)
    ensures PauseOverlayVisible(s.playing, s.loading) ==> Playback.IntervalTick(stories, s) == Playback.Step(s, false)
    ensures PauseOverlayVisible(s.playing, s.loading) <==> !s.loading && !Playback.TimerRunning(s)
    ensures PauseOverlayVisible(s.playing, s.loading) ==> Playback.TimerRunning(Playback.TogglePlay(s))
  {
  }

  /** `if (!currentStory) return null`: nothing is drawn for an index with
      no story. */
  predicate Renders(currentIndex: int, totalStories: int) {
    0 <= currentIndex < totalStories
  }

  /** A viewer opened on a story of the catalogue is drawn after any
      sequence of events. */
  lemma SessionAlwaysRenders(stories: seq<Stories.Story>, initialIndex: int, events: seq<Playback.Event>)
    requires 0 <= initialIndex < |stories|
    ensures Renders(Playback.Run(stories, Playback.Initial(initialIndex), events).state.index, |stories|)
  {
    Playback.SessionStaysInRange(stories, initialIndex, events);
  }

  /** `LoadingOverlay` is shown while loading an image not yet preloaded. */
  predicate LoadingOverlayVisible(isLoading: bool, isPreloaded: bool) {
    isLoading && !isPreloaded
  }

  /** Once the current image has loaded, neither loading display shows. */
  lemma LoadedHidesLoading(s: Playback.PlaybackState)
    ensures var r := Playback.HandleImageLoad(s);
            !LoadingOverlayVisible(r.loading, r.index in r.preloaded) && !r.loading
  {
  }
}
