# Story viewer playback, in Dafny

A model of the story viewer of the `instagram-stories` web app. The viewer shows a catalogue of
timed full-screen stories one at a time. It plays each story for its duration and then advances on its own.
It shows one progress bar per story, preloads the images next to the current one, and lets the
user move with keys, clicks, taps and swipes. The model covers:

- **the playback engine** (`useStories`, src/hooks/use-stories.ts). Module `Playback` describes it as a state
  machine over values, with one function per operation plus the progress interval and the lock-release timer as events.
  Its lemmas cover every sequence of events. Module `PlaybackEngine` is the same hook as a class. Its fields are
  the hook's state and the navigation-lock ref. `intervalRef` is not a field: whether the interval exists is the predicate `Playback.TimerRunning`. Its methods are `nextStory`, `previousStory`, `togglePlay`,
  `pauseStory`, `resumeStory` and `handleImageLoad`, plus the events `Tick`, `Unlock` and `ImageLoaded`.
  Each method is proved to produce exactly the state the matching `Playback` function gives.
- **the touch gesture classifier** (`useMobileNavigation`, src/hooks/use-mobile-navigation.ts). Module
  `MobileNavigation` has the swipe/tap decision as a function and the touch-start record as a class.
- **the viewer's decisions** (src/components/stories/story-viewer.tsx). Module `StoryViewer` covers the key switch,
  the click zones, the progress-bar flags, the chevrons, the counter and the pause overlay.
- **the slide transition** (src/components/stories/story-transitions.tsx). Module `StoryTransitions` covers the effect and
  its settle timer, `getSlideClass` as a three-valued offset, and the render guards.
- **the progress-bar width rule** (src/components/stories/progress-bar.tsx): module `ProgressBar`.

Progress is counted in whole 100 ms ticks. After `t` ticks the hook's percentage is, in exact arithmetic,
`t * 10000 / duration`, and `Playback.ProgressPercent` gives that value as an exact `real`.
Timers, `Date.now()`, touch coordinates and image load outcomes are parameters or events.

## Behaviour of the code worth knowing

- `initialIndex` is used as given, without clamping (src/hooks/use-stories.ts:17). An index outside the catalogue gets the default duration, and the viewer draws nothing for it (src/components/stories/story-viewer.tsx:75).
- A tap must end within 200 ms and move less than 30 px on each axis (src/hooks/use-mobile-navigation.ts:35).
- Only the lock inside `nextStory`/`previousStory` suppresses input (src/hooks/use-stories.ts:69, 89). `togglePlay` and `Escape` act even while it is held.
- `handleImageLoad` takes no index. It always clears `isLoading` and marks the *current* index as preloaded (src/hooks/use-stories.ts:146-149).
- A failed preload resolves without adding its index to the preloaded set (src/hooks/use-stories.ts:41).

## Model

| member | source | states |
|---|---|---|
| `Playback.Duration` | src/hooks/use-stories.ts:26-27 | the duration is always positive: the story's own when present and non-zero, otherwise 5000 ms (also for an index with no story) |
| `Playback.Initial` | src/hooks/use-stories.ts:17-24 | a session starts at `initialIndex` unclamped, with progress 0, playing, loading, nothing preloaded and the lock free |
| `Playback.ProgressPercent` | src/hooks/use-stories.ts:128 | the percentage `ticks * 10000 / duration` lies in [0, 100) whenever progress is below full |
| `Playback.TickAddsStep` | src/hooks/use-stories.ts:127-128 | one more tick adds exactly `100 / (duration / 100)` percent to the progress, the updater's step |
| `Playback.TickReachesFull` | src/hooks/use-stories.ts:128-130 | the updater's test `newProgress >= 100` holds of the next tick iff `(ticks + 1) * 100 >= duration` |
| `Playback.Navigate` | src/hooks/use-stories.ts:72-82 | a successful navigation moves to the target, resets progress to 0, plays, sets the lock, sets loading exactly when the target is not preloaded, and keeps the preloaded set |
| `Playback.NextStory` | src/hooks/use-stories.ts:68-86 | `onComplete` runs iff unlocked at or past the last index; the index changes iff unlocked below the last index, and then by exactly +1 with the navigation effects; otherwise the state is unchanged |
| `Playback.PreviousStory` | src/hooks/use-stories.ts:88-104 | the index changes iff unlocked and above 0, and then by exactly -1 with the navigation effects; otherwise nothing changes (never completes) |
| `Playback.TogglePlay` | src/hooks/use-stories.ts:106-110 | flips playing, whatever the lock, and changes nothing else |
| `Playback.PauseStory` | src/hooks/use-stories.ts:112-114 | stops playing and changes nothing else |
| `Playback.ResumeStory` | src/hooks/use-stories.ts:116-118 | starts playing and changes nothing else |
| `Playback.HandleImageLoad` | src/hooks/use-stories.ts:146-149 | clears loading; the set gains the current index and nothing else; no other field changes |
| `Playback.PreloadSettled` | src/hooks/use-stories.ts:29-43 | the set gains `index` iff the load succeeded for an index in range; out-of-range and failed loads leave the state unchanged |
| `Playback.ReleaseLock` | src/hooks/use-stories.ts:80-82 | the timeout clears the lock and nothing else |
| `Playback.IntervalTick` | src/hooks/use-stories.ts:120-137 | nothing happens unless playing and not loading; progress grows by one tick below 100 %; on reaching 100 % progress restarts and `nextStory` runs; progress stays below full |
| `Playback.PreloadRequests` | src/hooks/use-stories.ts:46-63 | the requested indices are never already preloaded, and none is requested twice |
| `Playback.PreloadRequestsExact` | src/hooks/use-stories.ts:50-60 | for an index in range, j is requested iff j is within 1 of the current index, inside the catalogue, and not preloaded |
| `Playback.RunStaysInRange` | src/hooks/use-stories.ts:68-104 | from an index in range, every sequence of events keeps the index in [0, len) |
| `Playback.SessionStaysInRange` | src/hooks/use-stories.ts:17-104 | a session opened at an in-range `initialIndex` keeps its index in range after any events |
| `Playback.RunStaysBelowFull` | src/hooks/use-stories.ts:124-135 | progress stays below 100 % after every sequence of events |
| `Playback.RunGrowsPreloaded` | src/hooks/use-stories.ts:37-40 | no sequence of events removes an index from the preloaded set |
| `Playback.LockedRunKeepsIndex` | src/hooks/use-stories.ts:68-104 | while the lock is held, no sequence of events moves the index, releases the lock or calls `onComplete` |
| `Playback.DoubleNextMovesOnce` | src/hooks/use-stories.ts:68-86 | two `nextStory` calls inside the cooldown move the index by exactly one |
| `Playback.RepeatedNextAtLast` | src/hooks/use-stories.ts:71-85 | at the last index, k unlocked `nextStory` calls complete k times and leave the state unchanged |
| `Playback.HandleImageLoadIdempotent` | src/hooks/use-stories.ts:146-149 | applying `handleImageLoad` twice equals applying it once |
| `Playback.TicksToAdvance` | src/hooks/use-stories.ts:126-137 | the number n of ticks a story plays satisfies d <= 100·n < d + 100 |
| `Playback.TicksAccumulate` | src/hooks/use-stories.ts:127-135 | k uninterrupted ticks below 100 % add exactly k to progress and change nothing else |
| `Playback.AutoplayAfterDuration` | src/hooks/use-stories.ts:124-135 | from progress 0 with playback running, the first n-1 ticks only add progress, and firing n of the interval does exactly what `nextStory` does, where d <= 100·n < d + 100 |
| `PlaybackEngine.StoryEngine.constructor` | src/hooks/use-stories.ts:12-24 | the object starts in `Playback.Initial(initialIndex)` with progress below full |
| `PlaybackEngine.StoryEngine.Progress` | src/hooks/use-stories.ts:128 | the displayed progress lies in [0, 100) |
| `PlaybackEngine.StoryEngine.NextStory` | src/hooks/use-stories.ts:68-86 | new fields and the `onComplete` flag are exactly `Playback.NextStory` of the old fields |
| `PlaybackEngine.StoryEngine.PreviousStory` | src/hooks/use-stories.ts:88-104 | new fields are exactly `Playback.PreviousStory` of the old fields |
| `PlaybackEngine.StoryEngine.TogglePlay` | src/hooks/use-stories.ts:106-110 | new fields are `Playback.TogglePlay` of the old |
| `PlaybackEngine.StoryEngine.PauseStory` | src/hooks/use-stories.ts:112-114 | new fields are `Playback.PauseStory` of the old |
| `PlaybackEngine.StoryEngine.ResumeStory` | src/hooks/use-stories.ts:116-118 | new fields are `Playback.ResumeStory` of the old |
| `PlaybackEngine.StoryEngine.HandleImageLoad` | src/hooks/use-stories.ts:146-149 | new fields are `Playback.HandleImageLoad` of the old |
| `PlaybackEngine.StoryEngine.Unlock` | src/hooks/use-stories.ts:80-82 | new fields are `Playback.ReleaseLock` of the old |
| `PlaybackEngine.StoryEngine.ImageLoaded` | src/hooks/use-stories.ts:29-43 | new fields are `Playback.PreloadSettled` of the old |
| `PlaybackEngine.StoryEngine.PreloadAdjacent` | src/hooks/use-stories.ts:46-66 | the indices requested, in order, are `Playback.PreloadRequests` of the current fields |
| `PlaybackEngine.StoryEngine.Tick` | src/hooks/use-stories.ts:120-144 | new fields and the `onComplete` flag are exactly `Playback.IntervalTick` of the old fields |
| `MobileNavigation.Decide` | src/hooks/use-mobile-navigation.ts:35-52 | a swipe goes back when rightward and on when leftward; a tap calls previous, next or toggle by area; the result is none iff the gesture is neither a tap nor a swipe |
| `MobileNavigation.TapExcludesSwipe` | src/hooks/use-mobile-navigation.ts:35-36 | no gesture is both a tap and a swipe |
| `MobileNavigation.IgnoredGestures` | src/hooks/use-mobile-navigation.ts:35-52 | a slow touch with little horizontal movement, and a horizontal movement of 30 to 50 px, invoke nothing |
| `MobileNavigation.ClassificationExamples` | src/hooks/use-mobile-navigation.ts:35-52 | quick small touch on the right goes on; an 80 px leftward swipe goes on; an 80 px rightward swipe goes back; a slow still touch does nothing |
| `MobileNavigation.TouchNavigator.constructor` | src/hooks/use-mobile-navigation.ts:16 | no touch start is recorded initially |
| `MobileNavigation.TouchNavigator.HandleTouchStart` | src/hooks/use-mobile-navigation.ts:18-25 | records position and time of the touch |
| `MobileNavigation.TouchNavigator.HandleTouchEnd` | src/hooks/use-mobile-navigation.ts:27-55 | without a recorded start nothing is invoked; otherwise at most one callback, the one `Decide` gives for the deltas; the record is always cleared |
| `ProgressBar.Width` | src/components/stories/progress-bar.tsx:15 | completed gives 100 whatever else; active and not completed gives the progress; neither gives 0; widths stay in [0, 100] |
| `StoryTransitions.Initial` | src/components/stories/story-transitions.tsx:26-28 | starts settled on the current index with no direction |
| `StoryTransitions.IndexChanged` | src/components/stories/story-transitions.tsx:33-41 | nothing changes when the index is the settled one; otherwise transitioning, with direction next iff the index grew and prev iff it shrank |
| `StoryTransitions.Settle` | src/components/stories/story-transitions.tsx:43-47 | settling yields not transitioning, no direction, and the settled index equal to the current one |
| `StoryTransitions.SlideOffset` | src/components/stories/story-transitions.tsx:53-69 | the current slide is centred in every coherent state; no other slide is ever centred; under next the outgoing slide alone goes left, under prev it alone goes right |
| `StoryTransitions.OutgoingRendered` | src/components/stories/story-transitions.tsx:73 | the guard for drawing the outgoing slide; `RenderedIndicesInRange` proves a drawn outgoing slide is off centre |
| `StoryTransitions.NextPreloadRendered` | src/components/stories/story-transitions.tsx:115 | the guard for the hidden next-story image; `RenderedIndicesInRange` proves the index it draws is in the catalogue |
| `StoryTransitions.PreviousPreloadRendered` | src/components/stories/story-transitions.tsx:128 | the guard for the hidden previous-story image; `RenderedIndicesInRange` proves the index it draws is in the catalogue |
| `StoryTransitions.CurrentSlideCentred` | src/components/stories/story-transitions.tsx:53-69 | in every coherent state the current slide is at offset 0; the fallback branch would push it right |
| `StoryTransitions.SlideOffsets` | src/components/stories/story-transitions.tsx:53-69 | under next the outgoing slide goes left and others right; under prev the reverse; outside a transition non-current slides sit right |
| `StoryTransitions.RenderedIndicesInRange` | src/components/stories/story-transitions.tsx:73-139 | for an index in range, the neighbour preload images `currentIndex + 1` and `currentIndex - 1` are drawn only when in the catalogue, and a drawn outgoing slide is off centre, on the left under next and on the right under prev |
| `StoryTransitions.RunStaysCoherent` | src/components/stories/story-transitions.tsx:33-69 | any order of renders and timer firings keeps "transitioning iff a direction" and so keeps the current slide centred |
| `StoryTransitions.SettledDrawsNoOutgoing` | src/components/stories/story-transitions.tsx:43-73 | after settling, no outgoing slide is drawn and the current slide is centred |
| `StoryTransitions.SlideTransitions.constructor` | src/components/stories/story-transitions.tsx:26-28 | the object starts in `Initial(currentIndex)`, which is coherent |
| `StoryTransitions.SlideTransitions.Effect` | src/components/stories/story-transitions.tsx:33-51 | new fields are `IndexChanged` of the old; coherence is kept |
| `StoryTransitions.SlideTransitions.TimerFired` | src/components/stories/story-transitions.tsx:43-47 | new fields are `Settle` of the old |
| `StoryViewer.HandleKeyDown` | src/components/stories/story-viewer.tsx:49-69 | previous iff ArrowLeft; next iff ArrowRight or space; close iff Escape; toggle iff p or P; default suppressed iff an intent other than close |
| `StoryViewer.ClickIntent` | src/components/stories/story-viewer.tsx:131-152 | left third goes back, middle toggles, right goes on, and each intent comes from that zone only |
| `StoryViewer.TouchIntent` | src/components/stories/story-viewer.tsx:38-45 | `onPrevious`, `onNext` and `onTogglePlay` map to previous, next and toggle, each as iff, and never to close |
| `StoryViewer.TapActsLikeClick` | src/components/stories/story-viewer.tsx:38-45 | a tap on a zone invokes the same engine operation as a click on it |
| `StoryViewer.EngineEvent` | src/components/stories/story-viewer.tsx:50-68 | previous calls `previousStory`, next calls `nextStory`, toggle calls `togglePlay`, each as iff; close reaches no engine operation |
| `StoryViewer.KeysWhileLocked` | src/components/stories/story-viewer.tsx:49-69 | while locked, no key moves the index or completes; p/P still toggles and Escape still closes |
| `StoryViewer.BarPropsAt` | src/components/stories/story-viewer.tsx:84-86 | bar i is active iff i is current, completed iff i is before it, and gets the live progress only when current |
| `StoryViewer.BarWidths` | src/components/stories/story-viewer.tsx:83-87 | bars before the current are full, the current shows progress, later bars are empty |
| `StoryViewer.BarWidth` | src/components/stories/story-viewer.tsx:81-89 | for progress in [0, 100] every bar's width is in [0, 100]; a bar other than the current one is either full or empty |
| `StoryViewer.BarsNonIncreasing` | src/components/stories/story-viewer.tsx:81-89 | for progress in [0, 100], bar widths never increase from left to right |
| `StoryViewer.EngineBars` | src/components/stories/story-viewer.tsx:83-87 | with the engine's progress, every bar is in [0, 100] and the current one below 100 |
| `StoryViewer.ShowLeftChevron` | src/components/stories/story-viewer.tsx:178 | the left chevron's guard; `ChevronsMatchNavigation` proves it shows iff going back would move |
| `StoryViewer.ShowRightChevron` | src/components/stories/story-viewer.tsx:181 | the right chevron's guard; `ChevronsMatchNavigation` proves it shows iff going on would move rather than complete |
| `StoryViewer.ChevronsMatchNavigation` | src/components/stories/story-viewer.tsx:178-183 | unlocked, the left chevron shows iff going back would move, the right iff going on would move, and is hidden iff going on completes |
| `StoryViewer.CounterAt` | src/components/stories/story-viewer.tsx:190 | shows `currentIndex + 1` of the total, in [1, total] for an index in range, equal to the total iff the right chevron is hidden and to 1 iff the left one is |
| `StoryViewer.PauseOverlayVisible` | src/components/stories/story-viewer.tsx:169 | the pause overlay's guard; `PauseOverlayMeansPaused` proves it shows iff the user stopped the timer |
| `StoryViewer.PauseOverlayMeansPaused` | src/components/stories/story-viewer.tsx:169 | the overlay shows iff not loading and the timer is stopped; then a tick changes nothing and one toggle restarts the timer |
| `StoryViewer.Renders` | src/components/stories/story-viewer.tsx:75 | the guard `if (!currentStory) return null`; `SessionAlwaysRenders` proves it holds in every session opened in range |
| `StoryViewer.SessionAlwaysRenders` | src/components/stories/story-viewer.tsx:75 | a viewer opened on a story of the catalogue draws something after every sequence of events |
| `StoryViewer.LoadingOverlayVisible` | src/components/stories/loading-states.tsx:11 | the `LoadingOverlay` guard, fed with `isLoading` and `preloadedImages.has(currentIndex)`; `LoadedHidesLoading` proves it false after the image loads |
| `StoryViewer.LoadedHidesLoading` | src/components/stories/story-viewer.tsx:155-158 | after the current image loads, the loading overlay is hidden |

## Left out

- Fetching and parsing the catalogue (src/app/page.tsx), the story strip and its items, CSS classes, icons and `next/image` rendering: I/O and markup with no decision logic.
- Real time: `setInterval`/`setTimeout` become the events `Tick`, `Unlock` and `TimerFired`, and `Date.now()` becomes a parameter. React render scheduling, stale closures and effect cleanup are not modelled. For example, the transition timer that is cleared when the index changes again is not modelled; `TimerFired` may arrive at any time, which covers more behaviour than the code has.
- Playback.ProgressPercent: floating-point rounding is not modelled; progress is an exact rational. The hook sums `100 / (duration / 100)` in IEEE-754 doubles, and for many durations that are multiples of 100 ms the sum of `duration / 100` steps falls just short of 100. For 3000 ms, 30 steps of 3.3333333333333335 give 99.99999999999997. By double-precision arithmetic (not a run of the program) this holds for 297 of the 600 multiples of 100 from 100 to 60000 ms, for example 1200, 1400, 2100, 3000 and 4200 ms; 5000 ms is not affected, and no duration that is not a multiple of 100 up to 20000 ms is affected.
- Playback.TicksToAdvance: holds in exact arithmetic only. For the durations above the hook advances one firing later than the model, 31 firings for 3000 ms instead of 30. For the code the bound is d <= 100·n <= d + 100 rather than d <= 100·n < d + 100.
- Playback.TickReachesFull: holds in exact arithmetic only. For the durations above, the hook's float sum after `duration / 100` steps is just below 100, so its test fails where the model's holds.
- Playback.AutoplayAfterDuration: in exact arithmetic only, for the same reason. The hook takes one more firing for the durations above.
- Stories.Story: durations are natural numbers. The code takes any JavaScript number, and negative and non-integer durations are not modelled. With a negative duration progress would run backwards and never reach 100 %.
- Playback.AutoplayAfterDuration: the bound d <= 100·n < d + 100 counts firings of one interval. The hook re-creates the interval whenever `nextStory` changes (src/hooks/use-stories.ts:86, 144). That happens each time `preloadedImages` gets a new `Set` (lines 38, 148), and the part of a period already elapsed is then lost. So in milliseconds the advance can come later than the duration plus 100 ms; the model does not bound it in milliseconds.
- Browser image loading (`new Image()`, `onload`/`onerror`) is a nondeterministic completion event with a success flag. The `Promise.allSettled` that awaits the preloads has no effect on state and is left out.
- The click and touch zones are the three CSS thirds of the screen. The model takes the zone as given and does not compute it from the position of a click or touch.
- Multi-touch: only the first touch of a start or end event is read, as in the code.
- The play/pause badge, image brightness and the `LoadingIndicator` (visible iff `isLoading`) are cosmetic and not modelled.
- The user-name and avatar fallbacks of the header are display-only and not modelled.
