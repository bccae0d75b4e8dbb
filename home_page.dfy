/**
  The home page's state: the hero and customer-review carousels, the review dots,
  the first-visit welcome dialog and the alternating background video.

  The `hasVisitedBefore` entry of local storage is a boolean field; the intervals
  that advance the carousels are calls of the advancing methods.
*/
module HomePage {

  const HeroCount := 3
  const ReviewCount := 5

  /** `(i + 1) % n`. */
  function Next(i: int, n: int): (j: int)
    requires 0 <= i && n > 0
    ensures 0 <= j < n
  {
    (i + 1) % n
  }

  /** `(i - 1 + n) % n`. */
  function Prev(i: int, n: int): (j: int)
    requires 0 <= i && n > 0
    ensures 0 <= j < n
  {
    (i - 1 + n) % n
  }

  /** `k` advances in a row. */
  function Advance(i: int, n: int, k: nat): (j: int)
    requires 0 <= i && n > 0
    ensures 0 <= j < n || (k == 0 && j == i)
  {
    if k == 0 then i else Next(Advance(i, n, k - 1), n)
  }

  /** Dot `index` is drawn active exactly when it is the current review. */
  predicate DotActive(index: int, current: int) {
    index == current
  }

  function ActiveDotsFrom(from: nat, current: int): nat
    requires from <= ReviewCount
    decreases ReviewCount - from
  {
    if from == ReviewCount then 0 else (if DotActive(from, current) then 1 else 0) + ActiveDotsFrom(from + 1, current)
  }

  const FirstVideo := "/video/video.mp4"
  const SecondVideo := "/video/video2.mp4"

  predicate EndsWith(s: string, suffix: string) {
    |suffix| <= |s| && s[|s| - |suffix|..] == suffix
  }

  /** `handleVideoEnd`: a source ending in `video.mp4` is followed by the second video, any other by the first. */
  function NextVideoSrc(src: string): (next: string)
    ensures EndsWith(src, "video.mp4") ==> next == SecondVideo
    ensures !EndsWith(src, "video.mp4") ==> next == FirstVideo
  {
    if EndsWith(src, "video.mp4") then "/video/video2.mp4" else "/video/video.mp4"
  }

  class HomePageState {
    var heroIndex: int
    var reviewIndex: int
    /** The `hasVisitedBefore` flag of local storage. */
    var hasVisitedBefore: bool
    var welcomeOpen: bool
    /** The video element's `src` property; the page gives the video a `<source>` child instead, so it starts empty. */
    var videoSrc: string

    predicate Valid()
      reads this
    {
      0 <= heroIndex < HeroCount && 0 <= reviewIndex < ReviewCount
    }

    /** A fresh page; `visited` is what local storage holds. */
    constructor(visited: bool)
      ensures Valid() && heroIndex == 0 && reviewIndex == 0
      ensures hasVisitedBefore == visited && !welcomeOpen && videoSrc == ""
    {
      heroIndex := 0;
      reviewIndex := 0;
      hasVisitedBefore := visited;
      welcomeOpen := false;
      videoSrc := "";
    }

    /** The hero interval and the "Next slide" button. */
    method NextHero()
      requires Valid()
      modifies this
      ensures Valid() && heroIndex == Next(old(heroIndex), HeroCount)
      ensures reviewIndex == old(reviewIndex) && welcomeOpen == old(welcomeOpen)
      ensures hasVisitedBefore == old(hasVisitedBefore) && videoSrc == old(videoSrc)
    {
      heroIndex := (heroIndex + 1) % 3;
    }

    /** The "Previous slide" button. */
    method PrevHero()
      requires Valid()
      modifies this
      ensures Valid() && heroIndex == Prev(old(heroIndex), HeroCount)
      ensures reviewIndex == old(reviewIndex) && welcomeOpen == old(welcomeOpen)
      ensures hasVisitedBefore == old(hasVisitedBefore) && videoSrc == old(videoSrc)
    {
      heroIndex := (heroIndex - 1 + 3) % 3;
    }

    /** The review interval. */
    method NextReview()
      requires Valid()
      modifies this
      ensures Valid() && reviewIndex == Next(old(reviewIndex), ReviewCount)
      ensures heroIndex == old(heroIndex) && welcomeOpen == old(welcomeOpen)
      ensures hasVisitedBefore == old(hasVisitedBefore) && videoSrc == old(videoSrc)
    {
      reviewIndex := (reviewIndex + 1) % 5;
    }

    /** Clicking review dot `k`, one of the five drawn. */
    method SelectReview(k: int)
      requires Valid() && 0 <= k < ReviewCount
      modifies this
      ensures Valid() && reviewIndex == k
      ensures forall d :: 0 <= d < ReviewCount ==> (DotActive(d, reviewIndex) <==> d == k)
      ensures heroIndex == old(heroIndex) && welcomeOpen == old(welcomeOpen)
      ensures hasVisitedBefore == old(hasVisitedBefore) && videoSrc == old(videoSrc)
    {
      reviewIndex := k;
    }

    /** The first-visit effect: open the welcome dialog and record the visit in one step. */
    method CheckFirstVisit()
      modifies this
      ensures hasVisitedBefore
      ensures welcomeOpen == (old(welcomeOpen) || !old(hasVisitedBefore))
      ensures heroIndex == old(heroIndex) && reviewIndex == old(reviewIndex) && videoSrc == old(videoSrc)
    {
      if !hasVisitedBefore {
        welcomeOpen := true;
        hasVisitedBefore := true;
      }
    }

    /** Closing the welcome dialog. */
    method CloseWelcome()
      modifies this
      ensures !welcomeOpen
      ensures heroIndex == old(heroIndex) && reviewIndex == old(reviewIndex)
      ensures hasVisitedBefore == old(hasVisitedBefore) && videoSrc == old(videoSrc)
    {
      welcomeOpen := false;
    }

    method HandleVideoEnd()
      modifies this
      ensures videoSrc == NextVideoSrc(old(videoSrc))
      ensures videoSrc == FirstVideo || videoSrc == SecondVideo
      ensures heroIndex == old(heroIndex) && reviewIndex == old(reviewIndex)
      ensures hasVisitedBefore == old(hasVisitedBefore) && welcomeOpen == old(welcomeOpen)
    {
      if EndsWith(videoSrc, "video.mp4") {
        videoSrc := "/video/video2.mp4";
      } else {
        videoSrc := "/video/video.mp4";
      }
    }
  }

  // ----- properties -----

  /** Proof helper: a multiplication bound used by `ModUnique`. */
  lemma MulAtLeast(k: int, n: int)
    requires k >= 1 && n > 0
    ensures k * n >= n
  {
    assert k * n == (k - 1) * n + n;
    assert (k - 1) * n >= 0;
  }

  /** The remainder is the unique `r` in `[0, n)` with `a == q * n + r`. */
  lemma ModUnique(a: int, n: int, q: int, r: int)
    requires n > 0 && 0 <= r < n && a == q * n + r
    ensures a % n == r
  {
    var q0 := a / n;
    var r0 := a % n;
    assert a == q0 * n + r0;
    assert (q - q0) * n == r0 - r;
    if q > q0 {
      MulAtLeast(q - q0, n);
    } else if q < q0 {
      MulAtLeast(q0 - q, n);
    }
  }

  lemma NextValue(i: int, n: int)
    requires 0 <= i < n
    ensures Next(i, n) == if i == n - 1 then 0 else i + 1
  {
    if i == n - 1 {
      ModUnique(i + 1, n, 1, 0);
    } else {
      ModUnique(i + 1, n, 0, i + 1);
    }
  }

  lemma PrevValue(i: int, n: int)
    requires 0 <= i < n
    ensures Prev(i, n) == if i == 0 then n - 1 else i - 1
  {
    if i == 0 {
      ModUnique(i - 1 + n, n, 0, n - 1);
    } else {
      ModUnique(i - 1 + n, n, 1, i - 1);
    }
  }

  /** Back after forward, and forward after back, return to the slide. */
  lemma NextPrevInverse(i: int, n: int)
    requires 0 <= i < n
    ensures Prev(Next(i, n), n) == i
    ensures Next(Prev(i, n), n) == i
  {
    NextValue(i, n);
    PrevValue(i, n);
    NextValue(Prev(i, n), n);
    PrevValue(Next(i, n), n);
  }

  /** Advancing from a remainder gives the remainder of the successor. */
  lemma NextOfRemainder(a: int, n: int)
    requires a >= 0 && n > 0
    ensures Next(a % n, n) == (a + 1) % n
  {
    var q, r := a / n, a % n;
    assert a == q * n + r;
    NextValue(r, n);
    if r == n - 1 {
      assert (q + 1) * n == q * n + n;
      ModUnique(a + 1, n, q + 1, 0);
    } else {
      ModUnique(a + 1, n, q, r + 1);
    }
  }

  lemma {:induction false} AdvanceIsModulo(i: int, n: int, k: nat)
    requires 0 <= i < n
    ensures Advance(i, n, k) == (i + k) % n
  {
    if k == 0 {
      ModUnique(i, n, 0, i);
    } else {
      AdvanceIsModulo(i, n, k - 1);
      NextOfRemainder(i + k - 1, n);
    }
  }

  /** `n` advances in a row come back to the starting slide. */
  lemma FullCycle(i: int, n: int)
    requires 0 <= i < n
    ensures Advance(i, n, n) == i
  {
    AdvanceIsModulo(i, n, n);
    ModUnique(i + n, n, 1, i);
  }

  /** The review carousel: five advances bring back the review on show. */
  lemma ReviewCycle(i: int)
    requires 0 <= i < ReviewCount
    ensures Advance(i, ReviewCount, ReviewCount) == i
  {
    FullCycle(i, ReviewCount);
  }

  /** Exactly one review dot is active. */
  lemma {:induction false} ActiveDots(from: nat, current: int)
    requires from <= ReviewCount && 0 <= current < ReviewCount
    ensures ActiveDotsFrom(from, current) == if from <= current then 1 else 0
    decreases ReviewCount - from
  {
    if from < ReviewCount {
      ActiveDots(from + 1, current);
    }
  }

  lemma OneDotActive(current: int)
    requires 0 <= current < ReviewCount
    ensures ActiveDotsFrom(0, current) == 1
  {
    ActiveDots(0, current);
  }

  /** Once the first video is loaded the sources alternate between the two videos. */
  lemma VideosAlternate()
    ensures NextVideoSrc(FirstVideo) == SecondVideo
    ensures NextVideoSrc(SecondVideo) == FirstVideo
  {
    var a := FirstVideo;
    assert a[|a| - 9..] == "video.mp4";
    var b := SecondVideo;
    assert b[|b| - 9..][0] == 'i';
  }

  /**
    The empty initial `src` does not end in `video.mp4`, so the first end of the
    video loads the first video again before the alternation starts.
  */
  lemma FirstEndReplaysFirstVideo()
    ensures NextVideoSrc("") == FirstVideo
  {
  }
}
