/** The slideshow session as a value: its state, the effect of each action and of each fetch
    completion on that state, and what those effects guarantee. The awaited image fetch is split in
    two: starting it records a pending fetch, and a later completion event resumes it with the
    outcome the image service produced. */
module SessionSpec {
  import opened SlideshowCache

  /** The message `previous` shows when there is no older photo. */
  const NoMoreImages: string := "No more images!"
  /** Shown when a forward fetch fails with something other than an image-service error. */
  const ForwardFetchFallback: string := "Failed to fetch image"
  /** Shown when the first load fails with something other than an image-service error. */
  const InitialFetchFallback: string := "Failed to fetch initial image"

  datatype Option<T> = None | Some(value: T)

  /** What the image service can throw: its own error type, which carries a message, or
      anything else. */
  datatype FetchError = ApiError(message: string) | OtherError

  /** How one awaited fetch ended. */
  datatype FetchOutcome = Fetched(photo: Photo) | FetchFailed(cause: FetchError)

  /** Which action is awaiting a fetch: `next` (through fetchNewImage) or the first load. */
  datatype FetchKind = ForwardFetch | InitialFetch

  /** Everything the hook holds. `timerArmed` stands for `intervalRef.current != null`;
      `inFlight` lists the fetches started and not yet completed, oldest first. */
  datatype SessionState = SessionState(
    images: seq<Photo>,
    currentIndex: int,
    isPlaying: bool,
    isLoading: bool,
    error: Option<string>,
    timerArmed: bool,
    inFlight: seq<FetchKind>)

  /** The text stored when a fetch fails. */
  function FailureText(cause: FetchError, fallback: string): (text: string)
    ensures cause.ApiError? ==> text == cause.message
    ensures cause.OtherError? ==> text == fallback
  {
    match cause
    case ApiError(message) => message
    case OtherError => fallback
  }

  /** The state a fresh session starts in. */
  function Initial(): (r: SessionState)
    ensures r.images == [] && r.currentIndex == 0 && r.inFlight == []
    ensures !r.isPlaying && !r.isLoading && !r.timerArmed && r.error == None
  {
    SessionState([], 0, false, false, None, false, [])
  }

  /** The auto-play effect, run after every change: the cleanup clears any interval, then one is
      armed exactly when playing and not loading. */
  function AutoPlayEffect(s: SessionState): (r: SessionState)
    ensures r.timerArmed == (r.isPlaying && !r.isLoading)
    ensures r.(timerArmed := s.timerArmed) == s
  {
    s.(timerArmed := s.isPlaying && !s.isLoading)
  }

  /** The synchronous part of a fetch, up to the `await`: loading on, error cleared. */
  function BeginFetch(s: SessionState, kind: FetchKind): (r: SessionState)
    ensures r.isLoading && r.error == None
    ensures |r.inFlight| == |s.inFlight| + 1 && r.inFlight[|s.inFlight|] == kind
    ensures r.inFlight[..|s.inFlight|] == s.inFlight
    ensures r.images == s.images && r.currentIndex == s.currentIndex && r.isPlaying == s.isPlaying
  {
    s.(isLoading := true, error := None, inFlight := s.inFlight + [kind])
  }

  /** `fetchInitialImage`: starts a fetch only when the cache is empty. */
  function LoadInitial(s: SessionState): (r: SessionState)
    ensures r.images == s.images && r.currentIndex == s.currentIndex && r.isPlaying == s.isPlaying
    ensures r.inFlight == s.inFlight || r.inFlight == s.inFlight + [InitialFetch]
  {
    if |s.images| == 0 then AutoPlayEffect(BeginFetch(s, InitialFetch)) else s
  }

  /** `next`: ignored while loading; steps through the cache, or fetches when at its end. */
  function Next(s: SessionState): (r: SessionState)
    ensures r.images == s.images && r.isPlaying == s.isPlaying
    ensures r.currentIndex == s.currentIndex || r.currentIndex == s.currentIndex + 1
    ensures r.inFlight == s.inFlight || r.inFlight == s.inFlight + [ForwardFetch]
  {
    if s.isLoading then s
    else if s.currentIndex < |s.images| - 1 then
      AutoPlayEffect(s.(currentIndex := s.currentIndex + 1, error := None))
    else
      AutoPlayEffect(BeginFetch(s, ForwardFetch))
  }

  /** `previous`: steps back, or reports that there is nothing older. */
  function Previous(s: SessionState): (r: SessionState)
    ensures r.images == s.images && r.inFlight == s.inFlight
    ensures r.isLoading == s.isLoading && r.isPlaying == s.isPlaying
    ensures r.currentIndex == s.currentIndex || r.currentIndex == s.currentIndex - 1
    ensures r.error == None || r.error == Some(NoMoreImages)
  {
    if s.currentIndex > 0 then AutoPlayEffect(s.(currentIndex := s.currentIndex - 1, error := None))
    else AutoPlayEffect(s.(error := Some(NoMoreImages)))
  }

  /** `play`. */
  function Play(s: SessionState): (r: SessionState)
    ensures r.images == s.images && r.currentIndex == s.currentIndex
    ensures r.isLoading == s.isLoading && r.inFlight == s.inFlight
  {
    AutoPlayEffect(s.(isPlaying := true, error := None))
  }

  /** `pause`: stops playing and clears the interval itself. */
  function Pause(s: SessionState): (r: SessionState)
    ensures r.images == s.images && r.currentIndex == s.currentIndex
    ensures r.isLoading == s.isLoading && r.inFlight == s.inFlight && r.error == s.error
  {
    AutoPlayEffect(s.(isPlaying := false, timerArmed := false))
  }

  /** The interval firing: calls `next` if an interval is armed, does nothing otherwise. */
  function Tick(s: SessionState): (r: SessionState)
    ensures r.images == s.images && r.isPlaying == s.isPlaying
    ensures r == s || r == Next(s)
  {
    if s.timerArmed then Next(s) else s
  }

  /** The pending fetches other than the one in `slot`. */
  function Without(pending: seq<FetchKind>, slot: nat): (rest: seq<FetchKind>)
    requires slot < |pending|
    ensures |rest| == |pending| - 1
    ensures forall k :: 0 <= k < slot ==> rest[k] == pending[k]
    ensures forall k :: slot <= k < |rest| ==> rest[k] == pending[k + 1]
  {
    pending[..slot] + pending[slot + 1..]
  }

  /** What the resumed fetch in `slot` commits, before its `finally` runs. */
  function ApplyOutcome(s: SessionState, kind: FetchKind, outcome: FetchOutcome): (r: SessionState)
    ensures r.isPlaying == s.isPlaying && r.isLoading == s.isLoading
    ensures r.inFlight == s.inFlight && r.timerArmed == s.timerArmed
    ensures outcome.FetchFailed? ==>
      r.images == s.images && r.currentIndex == s.currentIndex && r.error.Some?
    ensures outcome.Fetched? ==>
      && r.error == s.error
      && 1 <= |r.images| <= MaxCachedImages
      && r.images[|r.images| - 1] == outcome.photo
  {
    match (kind, outcome)
    case (ForwardFetch, Fetched(photo)) =>
      s.(images := AppendEvicting(s.images, photo), currentIndex := AdvancedIndex(s.currentIndex))
    case (InitialFetch, Fetched(photo)) =>
      s.(images := [photo], currentIndex := 0)
    case (ForwardFetch, FetchFailed(cause)) =>
      s.(error := Some(FailureText(cause, ForwardFetchFallback)))
    case (InitialFetch, FetchFailed(cause)) =>
      s.(error := Some(FailureText(cause, InitialFetchFallback)))
  }

  /** The fetch waiting in `slot` resumes with `outcome`; its `finally` clears loading whatever
      the outcome, exactly that fetch is retired, and the timer is re-armed when still playing. */
  function Complete(s: SessionState, slot: nat, outcome: FetchOutcome): (r: SessionState)
    requires slot < |s.inFlight|
    ensures !r.isLoading
    ensures |r.inFlight| == |s.inFlight| - 1
    ensures r.isPlaying == s.isPlaying && r.timerArmed == s.isPlaying
  {
    var done := ApplyOutcome(s, s.inFlight[slot], outcome);
    AutoPlayEffect(done.(isLoading := false, inFlight := Without(s.inFlight, slot)))
  }

  // ---------------------------------------------------------------------------------------------
  // Properties of single actions

  /** `next` while a fetch is in flight changes nothing and starts nothing. */
  lemma NextWhileLoadingIsNoOp(s: SessionState)
    requires s.isLoading
    ensures Next(s) == s
  {
  }

  /** The cached advance: one step forward, error cleared, cache and pending fetches unchanged. */
  lemma NextCachedAdvance(s: SessionState)
    requires !s.isLoading && s.currentIndex < |s.images| - 1
    ensures Next(s).currentIndex == s.currentIndex + 1
    ensures Next(s).error == None
    ensures Next(s).images == s.images && Next(s).inFlight == s.inFlight
    ensures !Next(s).isLoading && Next(s).isPlaying == s.isPlaying
  {
  }

  /** At the newest cached photo (or with an empty cache) `next` starts exactly one forward fetch
      and leaves cache and cursor alone until it completes. */
  lemma NextStartsForwardFetch(s: SessionState)
    requires !s.isLoading && s.currentIndex >= |s.images| - 1
    ensures Next(s).isLoading && Next(s).error == None
    ensures Next(s).inFlight == s.inFlight + [ForwardFetch]
    ensures Next(s).images == s.images && Next(s).currentIndex == s.currentIndex
    ensures !Next(s).timerArmed
  {
  }

  /** A successful forward fetch appends with eviction and advances the cursor, capped at 4. */
  lemma ForwardFetchSucceeds(s: SessionState, slot: nat, photo: Photo)
    requires slot < |s.inFlight| && s.inFlight[slot] == ForwardFetch
    ensures var t := Complete(s, slot, Fetched(photo));
      && t.images == AppendEvicting(s.images, photo)
      && |t.images| <= MaxCachedImages
      && t.images[|t.images| - 1] == photo
      && t.currentIndex == Min(s.currentIndex + 1, MaxCachedImages - 1)
      && t.error == s.error
      && !t.isLoading
  {
  }

  /** Started from the newest photo of a non-empty cache, a successful forward fetch leaves the
      cursor on the photo it just added. */
  lemma ForwardFetchLandsOnNewest(s: SessionState, slot: nat, photo: Photo)
    requires slot < |s.inFlight| && s.inFlight[slot] == ForwardFetch
    requires |s.images| >= 1 && s.currentIndex == |s.images| - 1
    ensures var t := Complete(s, slot, Fetched(photo));
      0 <= t.currentIndex == |t.images| - 1 && t.images[t.currentIndex] == photo
  {
  }

  /** A failed fetch of either kind stores the failure text and leaves cache and cursor alone. */
  lemma FetchFailureKeepsCache(s: SessionState, slot: nat, cause: FetchError)
    requires slot < |s.inFlight|
    ensures var t := Complete(s, slot, FetchFailed(cause));
      && t.images == s.images
      && t.currentIndex == s.currentIndex
      && !t.isLoading
      && t.error == Some(FailureText(cause,
           if s.inFlight[slot] == ForwardFetch then ForwardFetchFallback else InitialFetchFallback))
  {
  }

  /** The first load does nothing once the cache holds a photo. */
  lemma LoadInitialWhenLoadedIsNoOp(s: SessionState)
    requires |s.images| > 0
    ensures LoadInitial(s) == s
  {
  }

  /** From an empty cache the first load starts a fetch, even when one is already in flight. */
  lemma LoadInitialFromEmpty(s: SessionState)
    requires |s.images| == 0
    ensures LoadInitial(s).isLoading && LoadInitial(s).error == None
    ensures LoadInitial(s).inFlight == s.inFlight + [InitialFetch]
    ensures LoadInitial(s).images == [] && LoadInitial(s).currentIndex == s.currentIndex
  {
  }

  /** A successful first load replaces the cache by the one photo and points at it. */
  lemma InitialFetchSucceeds(s: SessionState, slot: nat, photo: Photo)
    requires slot < |s.inFlight| && s.inFlight[slot] == InitialFetch
    ensures Complete(s, slot, Fetched(photo)).images == [photo]
    ensures Complete(s, slot, Fetched(photo)).currentIndex == 0
    ensures Complete(s, slot, Fetched(photo)).error == s.error
  {
  }

  /** `previous` away from the first photo steps back and clears the error; on the first photo it
      reports exactly "No more images!" and moves nothing. */
  lemma PreviousSteps(s: SessionState)
    ensures Previous(s).images == s.images && Previous(s).inFlight == s.inFlight
    ensures Previous(s).isLoading == s.isLoading
    ensures s.currentIndex > 0 ==>
      Previous(s).currentIndex == s.currentIndex - 1 && Previous(s).error == None
    ensures s.currentIndex <= 0 ==>
      Previous(s).currentIndex == s.currentIndex && Previous(s).error == Some("No more images!")
  {
  }

  /** `play` turns auto-play on and clears the error; an interval is armed unless loading. */
  lemma PlayArmsUnlessLoading(s: SessionState)
    ensures Play(s).isPlaying && Play(s).error == None
    ensures Play(s).timerArmed == !s.isLoading
    ensures Play(s).images == s.images && Play(s).currentIndex == s.currentIndex
  {
  }

  /** `pause` turns auto-play off and disarms the interval, and a second `pause` changes
      nothing, whether or not `play` came first. */
  lemma PauseIsIdempotent(s: SessionState)
    ensures !Pause(s).isPlaying && !Pause(s).timerArmed
    ensures Pause(Pause(s)) == Pause(s)
    ensures Pause(s).images == s.images && Pause(s).currentIndex == s.currentIndex
    ensures Pause(s).error == s.error && Pause(s).inFlight == s.inFlight
    ensures Pause(s).isLoading == s.isLoading
  {
  }

  /** An interval that is not armed never calls `next`. */
  lemma TickWhenDisarmedIsNoOp(s: SessionState)
    requires !s.timerArmed
    ensures Tick(s) == s
  {
  }

  // ---------------------------------------------------------------------------------------------
  // Runs of events

  /** Everything that can happen to a session: the five actions, the interval firing, and the
      completion of the pending fetch in `slot`. */
  datatype Event =
    | LoadInitialCalled
    | NextCalled
    | PreviousCalled
    | PlayCalled
    | PauseCalled
    | TimerFired
    | FetchCompleted(slot: nat, outcome: FetchOutcome)

  /** A completion can only arrive for a fetch that is pending. */
  predicate Enabled(s: SessionState, e: Event) {
    e.FetchCompleted? ==> e.slot < |s.inFlight|
  }

  function Step(s: SessionState, e: Event): SessionState
    requires Enabled(s, e)
  {
    match e
    case LoadInitialCalled => LoadInitial(s)
    case NextCalled => Next(s)
    case PreviousCalled => Previous(s)
    case PlayCalled => Play(s)
    case PauseCalled => Pause(s)
    case TimerFired => Tick(s)
    case FetchCompleted(slot, outcome) => Complete(s, slot, outcome)
  }

  /** The run can be played from `s`: every completion refers to a pending fetch. */
  predicate Feasible(s: SessionState, events: seq<Event>)
    decreases |events|
  {
    events == [] || (Enabled(s, events[0]) && Feasible(Step(s, events[0]), events[1..]))
  }

  function Run(s: SessionState, events: seq<Event>): SessionState
    requires Feasible(s, events)
    decreases |events|
  {
    if events == [] then s else Run(Step(s, events[0]), events[1..])
  }

  /** What every reachable state satisfies: the cache bound, the cursor within the five slots and at
      most one past the cache, the interval armed exactly while playing and not loading, and a
      pending fetch behind every loading indicator. */
  ghost predicate Inv(s: SessionState) {
    && |s.images| <= MaxCachedImages
    && 0 <= s.currentIndex <= MaxCachedImages - 1
    && s.currentIndex <= |s.images|
    && s.timerArmed == (s.isPlaying && !s.isLoading)
    && (s.isLoading ==> |s.inFlight| > 0)
  }

  lemma InitialSatisfiesInv()
    ensures Inv(Initial())
  {
  }

  lemma StepPreservesInv(s: SessionState, e: Event)
    requires Inv(s) && Enabled(s, e)
    ensures Inv(Step(s, e))
  {
  }

  /** A completion keeps the invariant, and a failed one leaves the cache and the cursor alone. */
  lemma CompletePreservesInv(s: SessionState, slot: nat, outcome: FetchOutcome)
    requires Inv(s) && slot < |s.inFlight|
    ensures Inv(Complete(s, slot, outcome))
    ensures outcome.FetchFailed? ==>
      Complete(s, slot, outcome).images == s.images && Complete(s, slot, outcome).currentIndex == s.currentIndex
  {
    StepPreservesInv(s, FetchCompleted(slot, outcome));
  }

  /** The invariant holds after any feasible run of events. */
  lemma {:induction false} RunPreservesInv(s: SessionState, events: seq<Event>)
    requires Inv(s) && Feasible(s, events)
    ensures Inv(Run(s, events))
    decreases |events|
  {
    if events != [] {
      StepPreservesInv(s, events[0]);
      RunPreservesInv(Step(s, events[0]), events[1..]);
    }
  }

  /** While `isLoading` is set the interval is disarmed, so a tick then does nothing. */
  lemma TickWhileLoadingIsNoOp(s: SessionState)
    requires Inv(s) && s.isLoading
    ensures Tick(s) == s
  {
  }

  // ---------------------------------------------------------------------------------------------
  // Cursor validity and its one exception

  /** The cursor names a cached photo, or is 0 while the cache is empty. */
  ghost predicate CursorValid(s: SessionState) {
    if |s.images| == 0 then s.currentIndex == 0 else 0 <= s.currentIndex < |s.images|
  }

  /** `next` (called directly or by the interval) would start a forward fetch on an empty cache. */
  predicate FetchesForwardOnEmpty(s: SessionState, e: Event) {
    && (e.NextCalled? || (e.TimerFired? && s.timerArmed))
    && !s.isLoading
    && |s.images| == 0
  }

  /** Cursor validity together with the fact that every pending forward fetch was started on a
      non-empty cache (only the first load is ever pending on an empty one). */
  ghost predicate CursorSound(s: SessionState) {
    && Inv(s)
    && CursorValid(s)
    && (|s.images| == 0 ==> ForwardFetch !in s.inFlight)
  }

  lemma InitialIsCursorSound()
    ensures CursorSound(Initial())
  {
  }

  /** Every event keeps the cursor sound, except `next` starting a forward fetch on an empty
      cache. */
  lemma StepKeepsCursorSound(s: SessionState, e: Event)
    requires CursorSound(s) && Enabled(s, e) && !FetchesForwardOnEmpty(s, e)
    ensures CursorSound(Step(s, e))
  {
  }

  /** The run never lets `next` fetch forward from an empty cache. */
  ghost predicate NeverFetchesForwardOnEmpty(s: SessionState, events: seq<Event>)
    requires Feasible(s, events)
    decreases |events|
  {
    events == []
    || (!FetchesForwardOnEmpty(s, events[0])
        && NeverFetchesForwardOnEmpty(Step(s, events[0]), events[1..]))
  }

  /** As long as `next` is never used on an empty cache, the cursor names a cached photo after
      every run. */
  lemma {:induction false} RunKeepsCursorValid(s: SessionState, events: seq<Event>)
    requires CursorSound(s) && Feasible(s, events) && NeverFetchesForwardOnEmpty(s, events)
    ensures CursorValid(Run(s, events))
    decreases |events|
  {
    if events != [] {
      StepKeepsCursorSound(s, events[0]);
      RunKeepsCursorValid(Step(s, events[0]), events[1..]);
    }
  }

  /** The excluded case does happen: `next` on a fresh session, followed by a successful fetch,
      leaves one photo and the cursor at 1. */
  lemma NextOnEmptyOverrunsCursor(p: Photo)
    ensures var s := Complete(Next(Initial()), 0, Fetched(p));
      s.images == [p] && s.currentIndex == 1 && !CursorValid(s) && Inv(s)
  {
  }

  /** The first load has no in-flight guard: calling it twice before the fetch returns leaves two
      fetches pending, and the first to finish already clears loading. */
  lemma LoadInitialTwiceFetchesTwice(p: Photo)
    ensures var s := LoadInitial(LoadInitial(Initial()));
      s.inFlight == [InitialFetch, InitialFetch]
      && !Complete(s, 0, Fetched(p)).isLoading
      && |Complete(s, 0, Fetched(p)).inFlight| == 1
  {
  }

  /** Once the first of two initial fetches has completed, loading is off while the other is still
      pending, so the armed interval makes `next` start a second fetch alongside it. */
  lemma TickAfterDoubleLoadFetchesAlongside(a: Photo)
    ensures var s := Play(Complete(LoadInitial(LoadInitial(Initial())), 0, Fetched(a)));
      && Inv(s) && |s.inFlight| == 1 && !s.isLoading && s.timerArmed
      && |Tick(s).inFlight| == 2
  {
  }

  // ---------------------------------------------------------------------------------------------
  // One fetch at a time, as long as the first load is not repeated while loading

  /** At most one fetch is pending, and exactly while `isLoading` is set. */
  predicate AtMostOneFetch(s: SessionState) {
    |s.inFlight| <= 1 && (s.isLoading <==> |s.inFlight| == 1)
  }

  /** The first load is called while a fetch is in flight: the one unguarded way to a second fetch. */
  predicate LoadsWhileLoading(s: SessionState, e: Event) {
    e.LoadInitialCalled? && s.isLoading
  }

  /** Every event other than a first load during loading keeps at most one fetch in flight; this is
      the `isLoading` guard of `next` at work. */
  lemma StepKeepsOneFetch(s: SessionState, e: Event)
    requires AtMostOneFetch(s) && Enabled(s, e) && !LoadsWhileLoading(s, e)
    ensures AtMostOneFetch(Step(s, e))
  {
  }

  /** The run never calls the first load while a fetch is in flight. */
  ghost predicate NeverLoadsWhileLoading(s: SessionState, events: seq<Event>)
    requires Feasible(s, events)
    decreases |events|
  {
    events == []
    || (!LoadsWhileLoading(s, events[0])
        && NeverLoadsWhileLoading(Step(s, events[0]), events[1..]))
  }

  /** Along every run that does not repeat the first load while loading, at most one fetch is ever
      in flight, and exactly while `isLoading` is set. */
  lemma {:induction false} RunKeepsOneFetch(s: SessionState, events: seq<Event>)
    requires AtMostOneFetch(s) && Feasible(s, events) && NeverLoadsWhileLoading(s, events)
    ensures AtMostOneFetch(Run(s, events))
    decreases |events|
  {
    if events != [] {
      StepKeepsOneFetch(s, events[0]);
      RunKeepsOneFetch(Step(s, events[0]), events[1..]);
    }
  }

  // ---------------------------------------------------------------------------------------------
  // Runs of forward fetches

  /** Idle, nothing pending, and the cursor on the newest photo of a non-empty cache. */
  ghost predicate SettledOnNewest(s: SessionState) {
    && Inv(s)
    && !s.isLoading && s.inFlight == []
    && |s.images| >= 1 && s.currentIndex == |s.images| - 1
  }

  /** From a settled state, `next` takes the fetch branch, and its successful completion appends
      the photo with eviction and settles again on the new newest photo. */
  lemma NextThenFetchAppends(s: SessionState, p: Photo)
    requires SettledOnNewest(s)
    ensures Next(s).inFlight == [ForwardFetch]
    ensures var t := Complete(Next(s), 0, Fetched(p));
      && t.images == AppendEvicting(s.images, p)
      && SettledOnNewest(t)
  {
    StepPreservesInv(s, NextCalled);
    StepPreservesInv(Next(s), FetchCompleted(0, Fetched(p)));
  }

  /** `next` followed by the successful completion of its fetch, once per photo. */
  function ForwardFetchRun(photos: seq<Photo>): (events: seq<Event>)
    ensures |events| == 2 * |photos|
    decreases |photos|
  {
    if photos == [] then []
    else [NextCalled, FetchCompleted(0, Fetched(photos[0]))] + ForwardFetchRun(photos[1..])
  }

  /** A session settled on its newest photo that calls `next` once per arriving photo, each fetch
      succeeding, builds exactly the cache of successive evicting appends, and stays settled. */
  lemma {:induction false} ForwardRunAppendsAll(s: SessionState, photos: seq<Photo>)
    requires SettledOnNewest(s)
    ensures Feasible(s, ForwardFetchRun(photos))
    ensures Run(s, ForwardFetchRun(photos)).images == AppendAllEvicting(s.images, photos)
    ensures SettledOnNewest(Run(s, ForwardFetchRun(photos)))
    decreases |photos|
  {
    if photos != [] {
      var events := ForwardFetchRun(photos);
      var rest := ForwardFetchRun(photos[1..]);
      var done := FetchCompleted(0, Fetched(photos[0]));
      assert events[0] == NextCalled && events[1..][0] == done && events[1..][1..] == rest;
      NextThenFetchAppends(s, photos[0]);
      var t := Complete(Next(s), 0, Fetched(photos[0]));
      ForwardRunAppendsAll(t, photos[1..]);
      assert Step(Next(s), done) == t;
      assert Feasible(Next(s), events[1..]);
      assert Run(s, events) == Run(t, rest);
    }
  }

  // ---------------------------------------------------------------------------------------------
  // Scenarios

  /** Load A, fetch B forward, step back twice. */
  lemma LoadNextPreviousScenario(a: Photo, b: Photo)
    ensures var s1 := Complete(LoadInitial(Initial()), 0, Fetched(a));
      && s1.images == [a] && s1.currentIndex == 0 && s1.error == None
      && var s2 := Complete(Next(s1), 0, Fetched(b));
      && s2.images == [a, b] && s2.currentIndex == 1
      && var s3 := Previous(s2);
      && s3.currentIndex == 0 && s3.error == None
      && var s4 := Previous(s3);
      && s4.currentIndex == 0 && s4.images == [a, b] && s4.error == Some(NoMoreImages)
  {
  }

  /** Playing from a loaded session: two interval ticks, each answered by a successful fetch,
      add two photos; the interval is disarmed while each fetch is pending. */
  lemma AutoPlayScenario(a: Photo, b: Photo, c: Photo)
    ensures var s0 := Play(Complete(LoadInitial(Initial()), 0, Fetched(a)));
      && s0.timerArmed
      && var t1 := Tick(s0);
      && t1.isLoading && !t1.timerArmed && Tick(t1) == t1
      && var s1 := Complete(t1, 0, Fetched(b));
      && s1.timerArmed && s1.images == [a, b] && s1.currentIndex == 1
      && var t2 := Tick(s1);
      && t2.isLoading && !t2.timerArmed && Tick(t2) == t2
      && var s2 := Complete(t2, 0, Fetched(c));
      && s2.images == [a, b, c] && s2.currentIndex == 2 && s2.isPlaying && !s2.isLoading
  {
  }

  /** A first load followed by six `next` calls, every fetch succeeding: the cache holds the five
      newest photos in fetch order, the two oldest evicted, and the cursor is on the newest. */
  lemma SixNextsAfterLoad(a: Photo, b: Photo, c: Photo, d: Photo, e: Photo, f: Photo, g: Photo)
    ensures var s := Complete(LoadInitial(Initial()), 0, Fetched(a));
      && Feasible(s, ForwardFetchRun([b, c, d, e, f, g]))
      && Run(s, ForwardFetchRun([b, c, d, e, f, g])).images == [c, d, e, f, g]
      && Run(s, ForwardFetchRun([b, c, d, e, f, g])).currentIndex == 4
  {
    var s := Complete(LoadInitial(Initial()), 0, Fetched(a));
    assert SettledOnNewest(s);
    ForwardRunAppendsAll(s, [b, c, d, e, f, g]);
    SixForwardFetchesAfterLoad(a, b, c, d, e, f, g);
  }
}
