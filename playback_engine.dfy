/**
 The `useStories` hook of src/hooks/use-stories.ts as an object: its state
 hooks and refs become fields, its callbacks become methods, and the two
 timers and the image callbacks become event methods (`Tick`, `Unlock`,
 `ImageLoaded`). Each method is proved to do what the matching function of
 module Playback says, so every lemma there applies to the object.
 */
module PlaybackEngine {
  import opened Stories
  import Playback

  class StoryEngine {
    const stories: seq<Story>
    var currentIndex: int
    /** `progress`, counted in 100 ms ticks (see module Playback). */
    var elapsedTicks: nat
    var isPlaying: bool
    var isLoading: bool
    var preloadedImages: set<int>
    /** `isNavigatingRef.current`, the navigation lock. */
    var isNavigating: bool

    function State(): Playback.PlaybackState
      reads this
    {
      Playback.PlaybackState(currentIndex, elapsedTicks, isPlaying, isLoading, preloadedImages, isNavigating)
    }

    /** The object invariant: progress is below 100 %. */
    ghost predicate Valid()
      reads this
    {
      Playback.BelowFull(stories, State())
    }

    constructor (stories: seq<Story>, initialIndex: int)
      ensures this.stories == stories
      ensures State() == Playback.Initial(initialIndex)
      ensures Valid()
    {
      this.stories := stories;
      currentIndex := initialIndex;
      elapsedTicks := 0;
      isPlaying := true;
      isLoading := true;
      preloadedImages := {};
      isNavigating := false;
    }

    /** `progress`, in percent. */
    function Progress(): (p: real)
      reads this
      requires Valid()
      ensures 0.0 <= p < 100.0
    {
      Playback.ProgressPercent(stories, State())
    }

    /** `nextStory`; `completed` says whether `onComplete` was called. */
    method NextStory() returns (completed: bool)
      requires Valid()
      modifies this
      ensures Valid()
      ensures Playback.Step(State(), completed) == Playback.NextStory(stories, old(State()))
    {
      completed := false;
      if isNavigating {
        return;
      }
      if currentIndex < |stories| - 1 {
        isNavigating := true;
        var isImagePreloaded := currentIndex + 1 in preloadedImages;
        currentIndex := currentIndex + 1;
        elapsedTicks := 0;
        isPlaying := true;
        isLoading := !isImagePreloaded;
      } else {
        completed := true;
      }
    }

    /** `previousStory`. */
    method PreviousStory()
      requires Valid()
      modifies this
      ensures Valid()
      ensures State() == Playback.PreviousStory(old(State()))
    {
      if isNavigating {
        return;
      }
      if currentIndex > 0 {
        isNavigating := true;
        var isImagePreloaded := currentIndex - 1 in preloadedImages;
        currentIndex := currentIndex - 1;
        elapsedTicks := 0;
        isPlaying := true;
        isLoading := !isImagePreloaded;
      }
    }

    /** `togglePlay`. */
    method TogglePlay()
      requires Valid()
      modifies this
      ensures Valid()
      ensures State() == Playback.TogglePlay(old(State()))
    {
      isPlaying := !isPlaying;
    }

    /** `pauseStory`. */
    method PauseStory()
      requires Valid()
      modifies this
      ensures Valid()
      ensures State() == Playback.PauseStory(old(State()))
    {
      isPlaying := false;
    }

    /** `resumeStory`. */
    method ResumeStory()
      requires Valid()
      modifies this
      ensures Valid()
      ensures State() == Playback.ResumeStory(old(State()))
    {
      isPlaying := true;
    }

    /** `handleImageLoad`, the current image's `onLoad`. */
    method HandleImageLoad()
      requires Valid()
      modifies this
      ensures Valid()
      ensures State() == Playback.HandleImageLoad(old(State()))
    {
      isLoading := false;
      preloadedImages := preloadedImages + {currentIndex};
    }

    /** The lock-release timeout set by a successful navigation. */
    method Unlock()
      requires Valid()
      modifies this
      ensures Valid()
      ensures State() == Playback.ReleaseLock(old(State()))
    {
      isNavigating := false;
    }

    /** A `preloadImage(index)` promise settling; `loaded` is false when the
        image fired `onerror`. */
    method ImageLoaded(index: int, loaded: bool)
      requires Valid()
      modifies this
      ensures Valid()
      ensures State() == Playback.PreloadSettled(stories, old(State()), index, loaded)
    {
      if index < 0 || index >= |stories| {
        return;
      }
      if loaded {
        preloadedImages := preloadedImages + {index};
      }
    }

    /** The `preloadAdjacent` effect: which indices it hands to `preloadImage`. */
    method PreloadAdjacent() returns (toPreload: seq<int>)
      ensures toPreload == Playback.PreloadRequests(stories, State())
    {
      toPreload := [];
      if currentIndex !in preloadedImages {
        toPreload := toPreload + [currentIndex];
      }
      if currentIndex + 1 < |stories| && currentIndex + 1 !in preloadedImages {
        toPreload := toPreload + [currentIndex + 1];
      }
      if currentIndex - 1 >= 0 && currentIndex - 1 !in preloadedImages {
        toPreload := toPreload + [currentIndex - 1];
      }
    }

    /** One firing of the progress interval, which exists only while playing
        and not loading. */
    method Tick() returns (completed: bool)
      requires Valid()
      modifies this
      ensures Valid()
      ensures Playback.Step(State(), completed) == Playback.IntervalTick(stories, old(State()))
    {
      completed := false;
      if !isPlaying || isLoading {
        return;
      }
      var newTicks := elapsedTicks + 1;
      if newTicks * Playback.TickMs >= Playback.Duration(stories, currentIndex) {
        completed := NextStory();
        elapsedTicks := 0;
      } else {
        elapsedTicks := newTicks;
      }
    }
  }
}
