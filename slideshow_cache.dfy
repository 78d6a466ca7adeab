/** The bounded photo cache of the slideshow and the cursor arithmetic that goes with it:
    the two pure expressions of the hook, `[...prev, photo].slice(-MAX_CACHED_IMAGES)` and
    `Math.min(prev + 1, MAX_CACHED_IMAGES - 1)`. */
module SlideshowCache {

  /** MAX_CACHED_IMAGES: the cache never keeps more photos than this. */
  const MaxCachedImages: nat := 5

  /** A validated photo; the core only ever looks at its identity. */
  datatype Photo = Photo(id: string)

  function Min(a: int, b: int): int { if a <= b then a else b }

  /** The last `n` elements of `s`. */
  function Newest<T>(s: seq<T>, n: nat): (r: seq<T>)
    requires n <= |s|
    ensures |r| == n
  {
    s[|s| - n..]
  }

  /** Appends a freshly fetched photo and, when the window overflows, drops the oldest entries. */
  function AppendEvicting(cache: seq<Photo>, photo: Photo): (r: seq<Photo>)
    ensures |r| == Min(|cache| + 1, MaxCachedImages)
    ensures r == Newest(cache + [photo], |r|)
    ensures r[|r| - 1] == photo
    ensures r[..|r| - 1] == cache[|cache| + 1 - |r|..]
    ensures |cache| < MaxCachedImages ==> r == cache + [photo]
  {
    var grown := cache + [photo];
    if |grown| > MaxCachedImages then
      assert grown[|grown| - MaxCachedImages..][..MaxCachedImages - 1] == cache[|cache| + 1 - MaxCachedImages..];
      grown[|grown| - MaxCachedImages..]
    else
      grown
  }

  /** The cursor after a successful forward fetch: one step on, but never past slot 4. */
  function AdvancedIndex(prev: int): (r: int)
    ensures r <= MaxCachedImages - 1
    ensures r <= prev + 1
    ensures r == prev + 1 || r == MaxCachedImages - 1
  {
    Min(prev + 1, MaxCachedImages - 1)
  }

  /** When the cursor was on the newest photo of a non-empty cache, the advanced cursor is on the
      newest photo of the new cache: the cap at 4 and the cache length agree. */
  lemma AdvanceFollowsNewest(cache: seq<Photo>, photo: Photo)
    requires |cache| >= 1
    ensures AdvancedIndex(|cache| - 1) == |AppendEvicting(cache, photo)| - 1
  {
  }

  /** With an empty cache the cap does not help: the cursor lands one past the only photo. */
  lemma AdvanceFromEmptyOverruns(photo: Photo)
    ensures AppendEvicting([], photo) == [photo]
    ensures AdvancedIndex(0) == 1 == |AppendEvicting([], photo)|
  {
  }

  /** A run of successful forward fetches, in the order the photos arrived. */
  function AppendAllEvicting(cache: seq<Photo>, photos: seq<Photo>): seq<Photo>
    decreases |photos|
  {
    if photos == [] then cache else AppendAllEvicting(AppendEvicting(cache, photos[0]), photos[1..])
  }

  /** Keeping the newest `n` of `a` and then the newest `m` of that plus `b` is the same as keeping
      the newest `m` of `a + b`, as long as the first cut kept enough. */
  lemma NewestOfNewest(a: seq<Photo>, n: nat, b: seq<Photo>, m: nat)
    requires n <= |a| && m <= n + |b|
    ensures Newest(Newest(a, n) + b, m) == Newest(a + b, m)
  {
  }

  /** One forward fetch out of a run: the window it leaves and the photos still to come. */
  lemma AppendStep(cache: seq<Photo>, photos: seq<Photo>)
    requires |cache| <= MaxCachedImages && photos != []
    ensures Min(|AppendEvicting(cache, photos[0])| + |photos| - 1, MaxCachedImages)
         == Min(|cache| + |photos|, MaxCachedImages)
    ensures AppendEvicting(cache, photos[0]) + photos[1..]
         == Newest(cache + [photos[0]], |AppendEvicting(cache, photos[0])|) + photos[1..]
    ensures (cache + [photos[0]]) + photos[1..] == cache + photos
  {
  }

  /** However many photos arrive, the cache holds the newest `min(|cache| + |photos|, 5)` of
      everything seen, in arrival order: eviction only ever removes the oldest entries. */
  lemma {:induction false} AppendAllKeepsNewest(cache: seq<Photo>, photos: seq<Photo>)
    requires |cache| <= MaxCachedImages
    ensures AppendAllEvicting(cache, photos)
         == Newest(cache + photos, Min(|cache| + |photos|, MaxCachedImages))
    decreases |photos|
  {
    if photos == [] {
      assert cache + photos == cache;
    } else {
      var grown := cache + [photos[0]];
      var next := AppendEvicting(cache, photos[0]);
      var rest := photos[1..];
      var m := Min(|cache| + |photos|, MaxCachedImages);
      AppendStep(cache, photos);
      AppendAllKeepsNewest(next, rest);
      NewestOfNewest(grown, |next|, rest, m);
    }
  }

  /** Seven photos fetched one after another (the first load and six forward fetches) leave the
      five newest in the cache, the two oldest evicted. */
  lemma SixForwardFetchesAfterLoad(a: Photo, b: Photo, c: Photo, d: Photo, e: Photo, f: Photo, g: Photo)
    ensures AppendAllEvicting([a], [b, c, d, e, f, g]) == [c, d, e, f, g]
  {
    AppendAllKeepsNewest([a], [b, c, d, e, f, g]);
    assert [a] + [b, c, d, e, f, g] == [a, b, c, d, e, f, g];
  }
}
