/** The slideshow hook as an object: the state it holds in `useState`/`useRef` becomes fields, and
    each action is a method that updates them in place. Every method is tied to the transition of
    the same name in SessionSpec, whose properties are proved there. */
module SlideshowHook {
  import opened SlideshowCache
  import SessionSpec

  class Session {
    var images: seq<Photo>
    var currentIndex: int
    var isPlaying: bool
    var isLoading: bool
    var error: SessionSpec.Option<string>
    /** Whether `intervalRef.current` holds a live interval. */
    var timerArmed: bool
    /** The fetches whose `await` has not returned yet, oldest first. */
    var inFlight: seq<SessionSpec.FetchKind>

    /** The snapshot the hook hands to the presentation layer (plus the pending fetches). */
    function State(): SessionSpec.SessionState
      reads this
    {
      SessionSpec.SessionState(images, currentIndex, isPlaying, isLoading, error, timerArmed, inFlight)
    }

    ghost predicate Valid()
      reads this
    {
      SessionSpec.Inv(State())
    }

    constructor ()
      ensures State() == SessionSpec.Initial()
      ensures Valid()
    {
      images := [];
      currentIndex := 0;
      isPlaying := false;
      isLoading := false;
      error := SessionSpec.None;
      timerArmed := false;
      inFlight := [];
    }

    /** The auto-play effect: its cleanup clears the interval, then the body arms a fresh one when
        playing and not loading. */
    method RunAutoPlayEffect()
      modifies this
      ensures State() == SessionSpec.AutoPlayEffect(old(State()))
      ensures timerArmed <==> isPlaying && !isLoading
    {
      if timerArmed {
        timerArmed := false;
      }
      if isPlaying && !isLoading {
        timerArmed := true;
      }
    }

    /** The part of a fetch before its `await`. */
    method BeginFetch(kind: SessionSpec.FetchKind)
      modifies this
      ensures State() == SessionSpec.BeginFetch(old(State()), kind)
    {
      isLoading := true;
      error := SessionSpec.None;
      inFlight := inFlight + [kind];
    }

    /** `fetchInitialImage`: fetches only when the cache is empty; there is no in-flight guard. */
    method FetchInitialImage()
      requires Valid()
      modifies this
      ensures State() == SessionSpec.LoadInitial(old(State()))
      ensures Valid()
      ensures old(|images|) > 0 ==> unchanged(this)
    {
      if |images| == 0 {
        BeginFetch(SessionSpec.InitialFetch);
        RunAutoPlayEffect();
      }
      SessionSpec.StepPreservesInv(old(State()), SessionSpec.LoadInitialCalled);
    }

    /** `next`: ignored while loading; otherwise one step through the cache, or a forward fetch
        when the cursor is at (or past) the newest cached photo. */
    method Next()
      requires Valid()
      modifies this
      ensures State() == SessionSpec.Next(old(State()))
      ensures Valid()
      ensures old(isLoading) ==> unchanged(this)
      ensures !old(isLoading) && old(currentIndex) < old(|images|) - 1 ==>
        currentIndex == old(currentIndex) + 1 && images == old(images) && inFlight == old(inFlight)
      ensures !old(isLoading) && old(currentIndex) >= old(|images|) - 1 ==>
        isLoading && inFlight == old(inFlight) + [SessionSpec.ForwardFetch]
    {
      if isLoading {
        return;
      }
      if currentIndex < |images| - 1 {
        currentIndex := currentIndex + 1;
        error := SessionSpec.None;
      } else {
        BeginFetch(SessionSpec.ForwardFetch);
      }
      RunAutoPlayEffect();
      SessionSpec.StepPreservesInv(old(State()), SessionSpec.NextCalled);
    }

    /** `previous`: steps back, or reports "No more images!" on the first photo. */
    method Previous()
      requires Valid()
      modifies this
      ensures State() == SessionSpec.Previous(old(State()))
      ensures Valid()
      ensures images == old(images)
      ensures old(currentIndex) > 0 ==> currentIndex == old(currentIndex) - 1 && error == SessionSpec.None
      ensures old(currentIndex) <= 0 ==>
        currentIndex == old(currentIndex) && error == SessionSpec.Some(SessionSpec.NoMoreImages)
    {
      if currentIndex > 0 {
        currentIndex := currentIndex - 1;
        error := SessionSpec.None;
      } else {
        error := SessionSpec.Some(SessionSpec.NoMoreImages);
      }
      RunAutoPlayEffect();
      SessionSpec.StepPreservesInv(old(State()), SessionSpec.PreviousCalled);
    }

    /** `play`. */
    method Play()
      requires Valid()
      modifies this
      ensures State() == SessionSpec.Play(old(State()))
      ensures Valid()
      ensures isPlaying && error == SessionSpec.None && timerArmed == !isLoading
    {
      isPlaying := true;
      error := SessionSpec.None;
      RunAutoPlayEffect();
      SessionSpec.StepPreservesInv(old(State()), SessionSpec.PlayCalled);
    }

    /** `pause`: clears the interval itself, whether or not one is armed. */
    method Pause()
      requires Valid()
      modifies this
      ensures State() == SessionSpec.Pause(old(State()))
      ensures Valid()
      ensures !isPlaying && !timerArmed
    {
      isPlaying := false;
      if timerArmed {
        timerArmed := false;
      }
      RunAutoPlayEffect();
      SessionSpec.StepPreservesInv(old(State()), SessionSpec.PauseCalled);
    }

    /** The interval callback: calls `next` when an interval is armed. */
    method Tick()
      requires Valid()
      modifies this
      ensures State() == SessionSpec.Tick(old(State()))
      ensures Valid()
      ensures !old(timerArmed) ==> unchanged(this)
    {
      if timerArmed {
        Next();
      }
    }

    /** The `await` of the fetch in `slot` returns with `outcome`: the try or catch block commits
        its updates, then `finally` clears loading. */
    method CompleteFetch(slot: nat, outcome: SessionSpec.FetchOutcome)
      requires Valid() && slot < |inFlight|
      modifies this
      ensures State() == SessionSpec.Complete(old(State()), slot, outcome)
      ensures Valid()
      ensures !isLoading
      ensures outcome.FetchFailed? ==> images == old(images) && currentIndex == old(currentIndex)
    {
      var kind := inFlight[slot];
      ghost var done := SessionSpec.ApplyOutcome(old(State()), kind, outcome);
      match outcome {
        case Fetched(photo) =>
          if kind == SessionSpec.ForwardFetch {
            images := AppendEvicting(images, photo);
            currentIndex := AdvancedIndex(currentIndex);
          } else {
            images := [photo];
            currentIndex := 0;
          }
          assert State() == done;
        case FetchFailed(cause) =>
          var fallback := if kind == SessionSpec.ForwardFetch then SessionSpec.ForwardFetchFallback
                          else SessionSpec.InitialFetchFallback;
          error := SessionSpec.Some(SessionSpec.FailureText(cause, fallback));
          assert State() == done;
      }
      isLoading := false;
      inFlight := SessionSpec.Without(inFlight, slot);
      assert State() == done.(isLoading := false, inFlight := SessionSpec.Without(old(inFlight), slot));
      RunAutoPlayEffect();
      SessionSpec.CompletePreservesInv(old(State()), slot, outcome);
    }
  }
}
