/**
 * The proof-screenshot lightbox of script.js: an overlay showing one image of
 * a fixed list at a time, with a cyclic cursor, a "position / total" counter
 * and open/close/next/previous operations driven by clicks, keys and the wheel.
 */
module Lightbox {
  import opened Wrappers
  import Decimal

  /** The image paths the page ships with. */
  const ScreenshotPaths: seq<string> := [
    "assets/screenshots/Team.png",
    "assets/screenshots/top account.png",
    "assets/screenshots/earnings.png",
    "assets/screenshots/earnings2.png"
  ]

  // ---------------------------------------------------------------------------
  // Cursor arithmetic
  // ---------------------------------------------------------------------------

  /** `(currentIndex + 1) % images.length`. */
  function Next(i: nat, n: nat): (r: nat)
    requires i < n
    ensures r < n
    ensures r == if i == n - 1 then 0 else i + 1
  {
    (i + 1) % n
  }

  /** `(currentIndex - 1 + images.length) % images.length`. */
  function Prev(i: nat, n: nat): (r: nat)
    requires i < n
    ensures r < n
    ensures r == if i == 0 then n - 1 else i - 1
  {
    (i - 1 + n) % n
  }

  lemma PrevAfterNext(i: nat, n: nat)
    requires i < n
    ensures Prev(Next(i, n), n) == i
  {
  }

  lemma NextAfterPrev(i: nat, n: nat)
    requires i < n
    ensures Next(Prev(i, n), n) == i
  {
  }

  /** `k` consecutive calls of nextImage starting from `i`. */
  function NextTimes(i: nat, n: nat, k: nat): (r: nat)
    requires i < n
    ensures r < n
    decreases k
  {
    if k == 0 then i else Next(NextTimes(i, n, k - 1), n)
  }

  /** `k` consecutive calls of prevImage starting from `i`. */
  function PrevTimes(i: nat, n: nat, k: nat): (r: nat)
    requires i < n
    ensures r < n
    decreases k
  {
    if k == 0 then i else Prev(PrevTimes(i, n, k - 1), n)
  }

  /** Up to one full turn, going forward `k` steps lands on `i + k`, wrapped once. */
  lemma {:induction false} NextTimesWrapsOnce(i: nat, n: nat, k: nat)
    requires i < n && k <= n
    ensures NextTimes(i, n, k) == if i + k < n then i + k else i + k - n
    decreases k
  {
    if k > 0 {
      NextTimesWrapsOnce(i, n, k - 1);
    }
  }

  /** Up to one full turn, going back `k` steps lands on `i - k`, wrapped once. */
  lemma {:induction false} PrevTimesWrapsOnce(i: nat, n: nat, k: nat)
    requires i < n && k <= n
    ensures PrevTimes(i, n, k) == if k <= i then i - k else i - k + n
    decreases k
  {
    if k > 0 {
      PrevTimesWrapsOnce(i, n, k - 1);
    }
  }

  /** N forward steps, or N backward steps, bring the cursor back where it was. */
  lemma FullTurnIsIdentity(i: nat, n: nat)
    requires i < n
    ensures NextTimes(i, n, n) == i
    ensures PrevTimes(i, n, n) == i
  {
    NextTimesWrapsOnce(i, n, n);
    PrevTimesWrapsOnce(i, n, n);
  }

  /** Every image is reachable from the first one by forward steps. */
  lemma {:induction false} EveryImageReachable(j: nat, n: nat)
    requires j < n
    ensures NextTimes(0, n, j) == j
  {
    NextTimesWrapsOnce(0, n, j);
  }

  // ---------------------------------------------------------------------------
  // The counter label
  // ---------------------------------------------------------------------------

  /** `${currentIndex + 1} / ${images.length}`. */
  function CounterLabel(i: nat, n: nat): string {
    Decimal.Numeral(i + 1) + " / " + Decimal.Numeral(n)
  }

  datatype Counter = Counter(position: nat, total: nat)

  /** Reads a "position / total" label back; None when the text is not of that form. */
  function ParseCounter(s: string): Option<Counter> {
    var k := Decimal.DigitRun(s);
    if 0 < k && k + 3 <= |s| && s[k..k + 3] == " / "
       && k + 3 < |s| && Decimal.AllDigits(s[k + 3..])
    then Some(Counter(Decimal.Value(s[..k]), Decimal.Value(s[k + 3..])))
    else None
  }

  /** A label built from two digit strings reads back as their values. */
  lemma ParseCounterOfDigits(a: string, b: string)
    requires |a| > 0 && Decimal.AllDigits(a)
    requires |b| > 0 && Decimal.AllDigits(b)
    ensures ParseCounter(a + " / " + b) == Some(Counter(Decimal.Value(a), Decimal.Value(b)))
  {
    var s := a + " / " + b;
    assert s == a + (" / " + b);
    Decimal.DigitRunOfDigitsThenOther(a, " / " + b);
    var k := |a|;
    assert s[..k] == a;
    assert s[k..k + 3] == " / ";
    assert s[k + 3..] == b;
  }

  /** The label says exactly "position i + 1 out of n", and that position lies in 1..n. */
  lemma CounterLabelShowsPosition(i: nat, n: nat)
    requires i < n
    ensures ParseCounter(CounterLabel(i, n)) == Some(Counter(i + 1, n))
    ensures 1 <= i + 1 <= n
  {
    ParseCounterOfDigits(Decimal.Numeral(i + 1), Decimal.Numeral(n));
    Decimal.ValueOfNumeral(i + 1);
    Decimal.ValueOfNumeral(n);
  }

  // ---------------------------------------------------------------------------
  // Key dispatch
  // ---------------------------------------------------------------------------

  datatype Action = Forward | Backward | Dismiss | Ignore

  /** What the document keydown listener does with `key`. */
  function KeyAction(active: bool, key: string): (a: Action)
    ensures !active ==> a == Ignore
    ensures a == Forward <==> active && key == "ArrowRight"
    ensures a == Backward <==> active && key == "ArrowLeft"
    ensures a == Dismiss <==> active && key == "Escape"
  {
    if !active then Ignore
    else if key == "ArrowRight" then Forward
    else if key == "ArrowLeft" then Backward
    else if key == "Escape" then Dismiss
    else Ignore
  }

  /** What the wheel listener does: positive deltaY goes forward, anything else back. */
  function WheelAction(deltaY: real): (a: Action)
    ensures a == Forward <==> deltaY > 0.0
    ensures a == Backward <==> deltaY <= 0.0
  {
    if deltaY > 0.0 then Forward else Backward
  }

  // ---------------------------------------------------------------------------
  // The overlay
  // ---------------------------------------------------------------------------

  class Lightbox {
    /** The fixed list of image paths. */
    const images: seq<string>
    /** The cursor `currentIndex`. */
    var currentIndex: nat
    /** The `active` class on the lightbox element. */
    var active: bool
    /** The `active` class on the backdrop element. */
    var backdropActive: bool
    /** `document.body.style.overflow == 'hidden'`. */
    var scrollLocked: bool
    /** The `changing` class on the displayed image. */
    var changing: bool
    /** Image-swap timers scheduled by updateImage that have not fired yet. */
    var pendingSwaps: nat
    /** Whether a swap has installed the onload/onerror handlers. */
    var loadHandlersSet: bool
    /** The displayed image's `src`. */
    var src: string
    /** The counter element's text. */
    var counterText: string

    ghost predicate Valid()
      reads this
    {
      |images| > 0 && currentIndex < |images|
    }

    constructor (paths: seq<string>, initialSrc: string, initialCounter: string)
      requires |paths| > 0
      ensures Valid()
      ensures images == paths && currentIndex == 0
      ensures !active && !backdropActive && !scrollLocked && !changing
      ensures pendingSwaps == 0 && !loadHandlersSet
      ensures src == initialSrc && counterText == initialCounter
    {
      images := paths;
      currentIndex := 0;
      active, backdropActive, scrollLocked, changing := false, false, false, false;
      pendingSwaps, loadHandlersSet := 0, false;
      src, counterText := initialSrc, initialCounter;
    }

    /** updateImage: start the transition and schedule the swap. */
    method UpdateImage()
      requires Valid()
      modifies this
      ensures Valid()
      ensures changing && pendingSwaps == old(pendingSwaps) + 1
      ensures currentIndex == old(currentIndex)
      ensures active == old(active) && backdropActive == old(backdropActive)
      ensures scrollLocked == old(scrollLocked) && loadHandlersSet == old(loadHandlersSet)
      ensures src == old(src) && counterText == old(counterText)
    {
      changing := true;
      pendingSwaps := pendingSwaps + 1;
    }

    /**
     * One scheduled swap fires: it reads the cursor as it is NOW, shows that
     * image and its counter label, and installs the load handlers.
     */
    method SwapTimerFired()
      requires Valid() && pendingSwaps > 0
      modifies this
      ensures Valid()
      ensures src == images[currentIndex]
      ensures counterText == CounterLabel(currentIndex, |images|)
      ensures loadHandlersSet && pendingSwaps == old(pendingSwaps) - 1
      ensures currentIndex == old(currentIndex) && changing == old(changing)
      ensures active == old(active) && backdropActive == old(backdropActive)
      ensures scrollLocked == old(scrollLocked)
    {
      src := images[currentIndex];
      counterText := CounterLabel(currentIndex, |images|);
      loadHandlersSet := true;
      pendingSwaps := pendingSwaps - 1;
    }

    /** The image finished loading, or failed to: either handler clears `changing`. */
    method ImageLoadFinished()
      requires Valid()
      modifies this
      ensures Valid()
      ensures changing == (old(changing) && !loadHandlersSet)
      ensures currentIndex == old(currentIndex) && pendingSwaps == old(pendingSwaps)
      ensures active == old(active) && backdropActive == old(backdropActive)
      ensures scrollLocked == old(scrollLocked) && loadHandlersSet == old(loadHandlersSet)
      ensures src == old(src) && counterText == old(counterText)
    {
      if loadHandlersSet {
        changing := false;
      }
    }

    /** openLightbox: whatever the prior state, show the first image with scrolling locked. */
    method Open()
      requires Valid()
      modifies this
      ensures Valid()
      ensures currentIndex == 0
      ensures active && backdropActive && scrollLocked
      ensures changing && pendingSwaps == old(pendingSwaps) + 1
      ensures loadHandlersSet == old(loadHandlersSet)
      ensures src == old(src) && counterText == old(counterText)
    {
      scrollLocked := true;
      currentIndex := 0;
      backdropActive := true;
      active := true;
      UpdateImage();
    }

    /** closeLightbox: hide the overlay and restore scrolling; the cursor stays. */
    method Close()
      requires Valid()
      modifies this
      ensures Valid()
      ensures !active && !backdropActive && !scrollLocked
      ensures currentIndex == old(currentIndex) && changing == old(changing)
      ensures pendingSwaps == old(pendingSwaps) && loadHandlersSet == old(loadHandlersSet)
      ensures src == old(src) && counterText == old(counterText)
    {
      active := false;
      backdropActive := false;
      scrollLocked := false;
    }

    /** nextImage. */
    method NextImage()
      requires Valid()
      modifies this
      ensures Valid()
      ensures currentIndex == Next(old(currentIndex), |images|)
      ensures changing && pendingSwaps == old(pendingSwaps) + 1
      ensures active == old(active) && backdropActive == old(backdropActive)
      ensures scrollLocked == old(scrollLocked) && loadHandlersSet == old(loadHandlersSet)
      ensures src == old(src) && counterText == old(counterText)
    {
      currentIndex := (currentIndex + 1) % |images|;
      UpdateImage();
    }

    /** prevImage. */
    method PrevImage()
      requires Valid()
      modifies this
      ensures Valid()
      ensures currentIndex == Prev(old(currentIndex), |images|)
      ensures changing && pendingSwaps == old(pendingSwaps) + 1
      ensures active == old(active) && backdropActive == old(backdropActive)
      ensures scrollLocked == old(scrollLocked) && loadHandlersSet == old(loadHandlersSet)
      ensures src == old(src) && counterText == old(counterText)
    {
      currentIndex := (currentIndex - 1 + |images|) % |images|;
      UpdateImage();
    }

    /** The click listener on the lightbox element: only a click on the element itself closes. */
    method HandleLightboxClick(targetIsLightbox: bool)
      requires Valid()
      modifies this
      ensures Valid()
      ensures targetIsLightbox ==> !active && !backdropActive && !scrollLocked
      ensures !targetIsLightbox ==> active == old(active) && backdropActive == old(backdropActive) && scrollLocked == old(scrollLocked)
      ensures currentIndex == old(currentIndex) && changing == old(changing)
      ensures pendingSwaps == old(pendingSwaps) && loadHandlersSet == old(loadHandlersSet)
      ensures src == old(src) && counterText == old(counterText)
    {
      if targetIsLightbox {
        Close();
      }
    }

    /** The wheel listener on the lightbox element. */
    method HandleWheel(deltaY: real)
      requires Valid()
      modifies this
      ensures Valid()
      ensures WheelAction(deltaY) == Forward ==> currentIndex == Next(old(currentIndex), |images|)
      ensures WheelAction(deltaY) == Backward ==> currentIndex == Prev(old(currentIndex), |images|)
      ensures changing && pendingSwaps == old(pendingSwaps) + 1
      ensures active == old(active) && backdropActive == old(backdropActive)
      ensures scrollLocked == old(scrollLocked) && loadHandlersSet == old(loadHandlersSet)
      ensures src == old(src) && counterText == old(counterText)
    {
      if deltaY > 0.0 {
        NextImage();
      } else {
        PrevImage();
      }
    }

    /** The document keydown listener: keys act only while the lightbox is active. */
    method HandleKey(key: string)
      requires Valid()
      modifies this
      ensures Valid()
      ensures KeyAction(old(active), key) == Ignore ==> unchanged(this)
      ensures KeyAction(old(active), key) == Forward ==>
        currentIndex == Next(old(currentIndex), |images|) && changing
        && pendingSwaps == old(pendingSwaps) + 1 && active && backdropActive == old(backdropActive)
        && scrollLocked == old(scrollLocked) && loadHandlersSet == old(loadHandlersSet)
        && src == old(src) && counterText == old(counterText)
      ensures KeyAction(old(active), key) == Backward ==>
        currentIndex == Prev(old(currentIndex), |images|) && changing
        && pendingSwaps == old(pendingSwaps) + 1 && active && backdropActive == old(backdropActive)
        && scrollLocked == old(scrollLocked) && loadHandlersSet == old(loadHandlersSet)
        && src == old(src) && counterText == old(counterText)
      ensures KeyAction(old(active), key) == Dismiss ==>
        !active && !backdropActive && !scrollLocked
        && currentIndex == old(currentIndex) && changing == old(changing)
        && pendingSwaps == old(pendingSwaps) && loadHandlersSet == old(loadHandlersSet)
        && src == old(src) && counterText == old(counterText)
    {
      if active {
        if key == "ArrowRight" { NextImage(); }
        if key == "ArrowLeft" { PrevImage(); }
        if key == "Escape" { Close(); }
      }
    }
  }

  /** The page's lightbox: built over the four screenshots the script lists. */
  method NewPageLightbox(initialSrc: string, initialCounter: string) returns (box: Lightbox)
    ensures fresh(box) && box.Valid()
    ensures box.images == ScreenshotPaths && |box.images| == 4
    ensures box.currentIndex == 0 && !box.active && !box.scrollLocked
  {
    box := new Lightbox(ScreenshotPaths, initialSrc, initialCounter);
  }
}
