# Pelican slideshow session — a Dafny model

This project models the slideshow session state machine of the pelican slideshow, the
`useSlideshow` hook in `src/hooks/useSlideshow.ts`. The hook keeps a sliding window of at most five
fetched photos (`MAX_CACHED_IMAGES`), a cursor (`currentIndex`), the flags `isPlaying` and
`isLoading`, an optional error message, and an interval handle for auto-play. Five actions change
that state: `fetchInitialImage`, `next`, `previous`, `play` and `pause`. The auto-play effect calls
`next` on a timer.

The model is in three modules:

- `SlideshowCache` (`slideshow_cache.dfy`) holds the two pure expressions of the hook.
  `AppendEvicting` is `[...prev, photo]` cut to its last five entries. `AdvancedIndex` is
  `Math.min(prev + 1, 4)`. Lemmas cover a whole run of forward fetches.
- `SessionSpec` (`slideshow_state.dfy`) describes the session as a value `SessionState`.
  `LoadInitial`, `Next`, `Previous`, `Play`, `Pause` and `Tick` are functions from state to state;
  `Complete` handles a fetch completion. `Run` plays a sequence of events. The lemmas state what
  each action guarantees and which invariant every reachable state keeps. This module also shows
  the two places where the code does not keep two guarantees a reader would expect: that the cursor
  always names a cached photo, and that only one fetch is ever in flight.
- `SlideshowHook` (`slideshow_hook.dfy`) is the hook as an object. The `Session` class has one field
  per piece of hook state. Each action is a method that updates those fields in place. Each method's
  `ensures` ties the new `State()` to the `SessionSpec` transition of the same name, and restates the
  main facts directly.

The `await fetchRandomPelicanImage()` in `fetchNewImage` and `fetchInitialImage` is split in two:

- Starting a fetch (`BeginFetch`) sets `isLoading`, clears the error and records the pending fetch
  in `inFlight`.
- A later completion (`Complete` / `Session.CompleteFetch`) resumes one pending fetch. It receives
  either `Fetched(photo)` or `FetchFailed(cause)` from the image service, and pending fetches may
  complete in any order.

The interval handle is the boolean `timerArmed`. The auto-play effect runs after every change
(`AutoPlayEffect`): its cleanup disarms the timer, then it arms the timer exactly when playing and
not loading. The interval firing is the `Tick` event, which calls `next` only while the timer is
armed. Each action reads the latest committed state.

The model follows the code as written, including these behaviours:

- After a successful forward fetch the cursor becomes `min(prev + 1, 4)`, not `len - 1`, although
  the comment at `src/hooks/useSlideshow.ts:53` says it points to the new image. The two
  agree whenever `next` fetches from the newest photo of a non-empty cache
  (`ForwardFetchLandsOnNewest`). But `next` on an empty cache also fetches, because `0 < -1` is
  false, and then the cursor ends at 1 with a single photo (`NextOnEmptyOverrunsCursor`). The cursor
  stays valid along every run in which that does not happen (`RunKeepsCursorValid`).
- `fetchInitialImage` checks only that the cache is empty, not `isLoading`. Two calls before the
  first fetch returns start two fetches, and the first to finish clears `isLoading` while the other
  is still pending (`LoadInitialTwiceFetchesTwice`). A tick then starts a third fetch beside the
  pending one (`TickAfterDoubleLoadFetchesAlongside`). Along every run that never calls the first
  load while `isLoading` is set, at most one fetch is in flight, and exactly while `isLoading` is
  set (`RunKeepsOneFetch`).
- A successful fetch does not clear the error. Only the start of a fetch does. If `previous` on
  the first photo sets "No more images!" while a fetch is pending, that message survives the fetch's
  success (`ForwardFetchSucceeds`, `InitialFetchSucceeds`: `error` is unchanged).
- A failure stores the image-service error's own message. Any other thrown value becomes
  "Failed to fetch image" for a forward fetch and "Failed to fetch initial image" for the first
  load (`FailureText`, `FetchFailureKeepsCache`).

## Model

| member | source | states |
|---|---|---|
| `SlideshowCache.AppendEvicting` | src/hooks/useSlideshow.ts:44-51 | the new cache has `min(len+1, 5)` entries, is the newest part of `prev + [photo]`, ends with the new photo, keeps the newest part of the old cache in front of it, and is exactly `prev + [photo]` while the old cache held fewer than 5 |
| `SlideshowCache.AdvancedIndex` | src/hooks/useSlideshow.ts:54-56 | the cursor after a forward fetch is at most 4 and at most one step on; it is either one step on or exactly 4 |
| `SlideshowCache.AdvanceFollowsNewest` | src/hooks/useSlideshow.ts:54-56 | from the newest photo of a non-empty cache, the advanced cursor is the last index of the new cache |
| `SlideshowCache.AdvanceFromEmptyOverruns` | src/hooks/useSlideshow.ts:54-56 | from an empty cache the new cache is `[photo]` but the advanced cursor is 1, one past its end |
| `SlideshowCache.AppendAllKeepsNewest` | src/hooks/useSlideshow.ts:44-51 | after any run of forward fetches the cache is the newest `min(len + n, 5)` of everything seen, in arrival order: eviction only removes the oldest entries |
| `SlideshowCache.SixForwardFetchesAfterLoad` | src/hooks/useSlideshow.ts:44-51 | a first load and six forward fetches leave the five newest photos in fetch order, the two oldest evicted |
| `SessionSpec.Initial` | src/hooks/useSlideshow.ts:28-34 | a fresh session has no photos, cursor 0, nothing pending, and is not playing, not loading, without error and without timer |
| `SessionSpec.AutoPlayEffect` | src/hooks/useSlideshow.ts:130-143 | after the effect the timer is armed exactly when playing and not loading, and nothing but the timer changes |
| `SessionSpec.BeginFetch` | src/hooks/useSlideshow.ts:38-39 | starting a fetch sets loading, clears the error and appends exactly one pending fetch of the given kind after the earlier ones; cache, cursor and `isPlaying` are untouched |
| `SessionSpec.LoadInitial` | src/hooks/useSlideshow.ts:71-88 | the first load never changes cache, cursor or `isPlaying`; it either starts nothing or adds exactly one pending initial fetch |
| `SessionSpec.Next` | src/hooks/useSlideshow.ts:91-102 | `next` never changes the cache or `isPlaying`; the cursor stays or moves one step on; it starts at most one forward fetch |
| `SessionSpec.Previous` | src/hooks/useSlideshow.ts:105-112 | `previous` never changes the cache, the pending fetches, loading or `isPlaying`; the cursor stays or moves one step back; the error becomes empty or "No more images!" |
| `SessionSpec.Play` | src/hooks/useSlideshow.ts:115-118 | `play` changes neither cache, cursor, loading nor the pending fetches |
| `SessionSpec.Pause` | src/hooks/useSlideshow.ts:121-127 | `pause` changes neither cache, cursor, loading, the pending fetches nor the error |
| `SessionSpec.Tick` | src/hooks/useSlideshow.ts:132-134 | a tick either changes nothing or is exactly a call of `next`; it never changes the cache or `isPlaying` |
| `SessionSpec.ApplyOutcome` | src/hooks/useSlideshow.ts:44-63 | what a resumed fetch commits: a failure keeps cache and cursor and sets an error; a success keeps the error and leaves 1 to 5 photos ending with the new one; playing, loading, pending fetches and timer are untouched until `finally` |
| `SessionSpec.Complete` | src/hooks/useSlideshow.ts:42-86 | every completion, whatever its outcome, clears loading, retires exactly one pending fetch, keeps `isPlaying` and re-arms the timer exactly when playing |
| `SessionSpec.FailureText` | src/hooks/useSlideshow.ts:60-62 | an image-service error shows its own message; any other failure shows the fallback text of the fetch that failed |
| `SessionSpec.NextWhileLoadingIsNoOp` | src/hooks/useSlideshow.ts:92 | `next` while loading returns the state unchanged: cache, cursor, error and pending fetches are untouched and no fetch starts |
| `SessionSpec.NextCachedAdvance` | src/hooks/useSlideshow.ts:95-97 | with the cursor before the newest cached photo, `next` moves it exactly one step, clears the error, and changes neither the cache nor the pending fetches |
| `SessionSpec.NextStartsForwardFetch` | src/hooks/useSlideshow.ts:98-101 | at or past the newest cached photo, `next` starts exactly one forward fetch: loading on, error cleared, timer disarmed, cache and cursor unchanged |
| `SessionSpec.ForwardFetchSucceeds` | src/hooks/useSlideshow.ts:42-67 | a successful forward fetch appends with eviction (at most 5, new photo last), sets the cursor to `min(prev+1, 4)`, leaves the error as it was and clears loading |
| `SessionSpec.ForwardFetchLandsOnNewest` | src/hooks/useSlideshow.ts:54-56 | started from the newest photo of a non-empty cache, a successful forward fetch leaves the cursor on the photo it added |
| `SessionSpec.FetchFailureKeepsCache` | src/hooks/useSlideshow.ts:59-67 | a failed fetch of either kind leaves cache and cursor unchanged, clears loading and stores the failure text with that fetch's fallback |
| `SessionSpec.LoadInitialWhenLoadedIsNoOp` | src/hooks/useSlideshow.ts:72 | the first load does nothing once the cache is non-empty |
| `SessionSpec.LoadInitialFromEmpty` | src/hooks/useSlideshow.ts:72-74 | from an empty cache the first load sets loading, clears the error and adds one pending initial fetch, whether or not one is already pending |
| `SessionSpec.InitialFetchSucceeds` | src/hooks/useSlideshow.ts:76-78 | a successful first load makes the cache exactly `[photo]` with the cursor at 0, and leaves the error as it was |
| `SessionSpec.PreviousSteps` | src/hooks/useSlideshow.ts:105-111 | with the cursor above 0, `previous` moves it one step back and clears the error; otherwise it sets the error to exactly "No more images!" and leaves the cursor; the cache is never touched |
| `SessionSpec.PlayArmsUnlessLoading` | src/hooks/useSlideshow.ts:115-118 | `play` sets `isPlaying`, clears the error and arms the timer exactly when not loading |
| `SessionSpec.PauseIsIdempotent` | src/hooks/useSlideshow.ts:121-127 | `pause` leaves `isPlaying` false and the timer disarmed, keeps cache, cursor, loading, error and pending fetches, and a second `pause` changes nothing |
| `SessionSpec.TickWhenDisarmedIsNoOp` | src/hooks/useSlideshow.ts:132-134 | an interval that is not armed never calls `next` |
| `SessionSpec.TickWhileLoadingIsNoOp` | src/hooks/useSlideshow.ts:130-135 | in every state satisfying the invariant, a tick while `isLoading` is set does nothing |
| `SessionSpec.CompletePreservesInv` | src/hooks/useSlideshow.ts:42-86 | a completion keeps the invariant, and a failed one leaves cache and cursor unchanged |
| `SessionSpec.InitialSatisfiesInv` | src/hooks/useSlideshow.ts:28-34 | the fresh session satisfies the invariant |
| `SessionSpec.StepPreservesInv` | src/hooks/useSlideshow.ts:37-143 | every action, tick and completion keeps the invariant: at most 5 photos, the cursor in 0..4 and at most the cache length, the timer armed exactly when playing and not loading, and a pending fetch behind every loading indicator |
| `SessionSpec.RunPreservesInv` | src/hooks/useSlideshow.ts:37-143 | the invariant holds after every feasible run of events |
| `SessionSpec.InitialIsCursorSound` | src/hooks/useSlideshow.ts:28-29 | the fresh session has a valid cursor and no pending forward fetch |
| `SessionSpec.StepKeepsCursorSound` | src/hooks/useSlideshow.ts:91-101 | every event except `next` fetching forward on an empty cache keeps the cursor valid, and keeps every pending forward fetch tied to a non-empty cache |
| `SessionSpec.RunKeepsCursorValid` | src/hooks/useSlideshow.ts:54-56 | along every run in which `next` never fetches on an empty cache, the cursor names a cached photo, or is 0 while the cache is empty |
| `SessionSpec.NextOnEmptyOverrunsCursor` | src/hooks/useSlideshow.ts:95-100 | `next` on a fresh session followed by a successful fetch leaves one photo with the cursor at 1, which is not a valid index, although the invariant still holds |
| `SessionSpec.LoadInitialTwiceFetchesTwice` | src/hooks/useSlideshow.ts:71-88 | two first loads before the fetch returns leave two fetches pending, and the first completion already clears loading |
| `SessionSpec.TickAfterDoubleLoadFetchesAlongside` | src/hooks/useSlideshow.ts:71-102 | after two first loads, one completion and `play`, loading is off with a fetch still pending and the timer armed, and a tick starts a second fetch beside it |
| `SessionSpec.StepKeepsOneFetch` | src/hooks/useSlideshow.ts:92 | every event except a first load during loading keeps at most one fetch pending, and pending exactly while `isLoading` is set |
| `SessionSpec.RunKeepsOneFetch` | src/hooks/useSlideshow.ts:71-102 | along every run that never calls the first load while loading, at most one fetch is ever pending, exactly while `isLoading` is set |
| `SessionSpec.NextThenFetchAppends` | src/hooks/useSlideshow.ts:95-100 | from an idle state with the cursor on the newest photo, `next` starts exactly one forward fetch, and its success makes the cache the evicting append of the new photo and leaves the cursor on it |
| `SessionSpec.ForwardFetchRun` | src/hooks/useSlideshow.ts:91-102 | the run of one `next` and one successful completion per photo has two events per photo |
| `SessionSpec.ForwardRunAppendsAll` | src/hooks/useSlideshow.ts:44-56 | from an idle state on the newest photo, one `next` and one successful fetch per photo is always playable, builds exactly the cache of successive evicting appends, and ends idle with the cursor on the newest photo |
| `SessionSpec.SixNextsAfterLoad` | src/hooks/useSlideshow.ts:44-56 | a first load and six `next` calls, every fetch succeeding, leave the five newest photos in fetch order with the cursor at 4 |
| `SessionSpec.LoadNextPreviousScenario` | src/test/useSlideshow.test.ts:78-116 | load A gives `[A]` at cursor 0 with no error; fetching B forward gives `[A, B]` at cursor 1; `previous` returns to 0; a second `previous` sets "No more images!" with cache and cursor unchanged |
| `SessionSpec.AutoPlayScenario` | src/hooks/useSlideshow.ts:130-143 | while playing, each tick starts one fetch and disarms the timer, a second tick in that window does nothing, and two successful ticks add exactly two photos |
| `SlideshowHook.Session.constructor` | src/hooks/useSlideshow.ts:28-34 | a new session is empty: no photos, cursor 0, not playing, not loading, no error, no timer, nothing pending |
| `SlideshowHook.Session.RunAutoPlayEffect` | src/hooks/useSlideshow.ts:130-143 | after the effect the timer is armed exactly when playing and not loading, and nothing else changes |
| `SlideshowHook.Session.BeginFetch` | src/hooks/useSlideshow.ts:38-39 | starting a fetch sets loading, clears the error and records one pending fetch |
| `SlideshowHook.Session.FetchInitialImage` | src/hooks/useSlideshow.ts:71-88 | the object moves as `LoadInitial` says and keeps the invariant; with a non-empty cache nothing changes |
| `SlideshowHook.Session.Next` | src/hooks/useSlideshow.ts:91-102 | the object moves as `Next` says and keeps the invariant: unchanged while loading, one step within the cache, or one forward fetch started |
| `SlideshowHook.Session.Previous` | src/hooks/useSlideshow.ts:105-112 | the object moves as `Previous` says: one step back with the error cleared, or "No more images!" at cursor 0; the cache is untouched |
| `SlideshowHook.Session.Play` | src/hooks/useSlideshow.ts:115-118 | playing, error cleared, timer armed exactly when not loading |
| `SlideshowHook.Session.Pause` | src/hooks/useSlideshow.ts:121-127 | not playing and timer disarmed, whatever the state before |
| `SlideshowHook.Session.Tick` | src/hooks/useSlideshow.ts:132-134 | the interval callback calls `next` when armed and changes nothing otherwise |
| `SlideshowHook.Session.CompleteFetch` | src/hooks/useSlideshow.ts:42-86 | the object moves as `Complete` says and keeps the invariant; loading is off afterwards, and a failure leaves cache and cursor unchanged |

## Left out

- The image service call, `fetchRandomPelicanImage` in `src/api/unsplash.ts`: its HTTP request, the
  access key read from the environment and its error wrapping are network I/O. The model receives
  each call's outcome as a `Fetched(photo)` or `FetchFailed(cause)` parameter of the completion.
- The photo schema in `src/types/unsplash.ts` and its validation library. A `Photo` is an opaque
  validated value with only its `id`.
- The HTTP status code carried by the image-service error. The hook never reads it.
- The image service rethrows every failure as its own error type (`src/api/unsplash.ts:58-64`), so
  through `fetchRandomPelicanImage` the `OtherError` cause and the two fallback texts are never
  reached. The hook's `catch` branches are modelled as written, with both causes possible.
- The components under `src/components/`. They are presentation only: the loading spinner, button
  disabling, the special styling of "No more images!" and the position text.
- React's rendering mechanics: `useCallback` dependency lists, stale closures and effect ordering.
  Each action reads the latest committed state. The effect is applied after every change instead of
  only when its dependencies change; both give the same `timerArmed` once the invariant holds.
- The 2000 ms period and real time. The timer is a flag, and a firing is the explicit `Tick` event.
  Which of several armed intervals fires when is not modelled.
- Unmounting the component. The effect cleanup that runs then, and updates arriving on an unmounted
  component, are not part of this model.
- The tests under `src/test/` are not modelled. The scenario lemmas restate what they check.
