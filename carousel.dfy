/**
 * The home page's hero carousel (`HeroCarousel`): four slides, arrows and
 * indicator dots, an auto-advance interval of 3 seconds, a play/pause button,
 * and a pause while the pointer is over the section.
 *
 * The browser's interval timers are modelled by the set of interval handles
 * currently scheduled (`activeIntervals`) and a counter that hands out new,
 * non-zero handles as `setInterval` does; a tick of the interval with handle
 * `h` is the call `Tick(h)`. The 3-second period itself is not modelled.
 */
module Carousel {
  import opened Wrappers

  const SlideCount := 4

  /** `(prev + 1) % slides.length`: the step of the arrow, and of every timer tick. */
  function NextIndex(i: nat): (r: nat)
    ensures r < SlideCount
    ensures i < SlideCount - 1 ==> r == i + 1
    ensures i == SlideCount - 1 ==> r == 0
  {
    (i + 1) % SlideCount
  }

  /** `(prev - 1 + slides.length) % slides.length` */
  function PrevIndex(i: nat): (r: nat)
    ensures r < SlideCount
    ensures 0 < i < SlideCount ==> r == i - 1
    ensures i == 0 ==> r == SlideCount - 1
  {
    (i - 1 + SlideCount) % SlideCount
  }

  /** Going back undoes going forward, and the other way round. */
  lemma NextPrevInverse(i: nat)
    requires i < SlideCount
    ensures PrevIndex(NextIndex(i)) == i
    ensures NextIndex(PrevIndex(i)) == i
  {
  }

  /** `n` forward steps from slide `i`. */
  function Advance(i: nat, n: nat): (r: nat)
    decreases n
  {
    if n == 0 then i else NextIndex(Advance(i, n - 1))
  }

  /** The slide reached after `n` forward steps is `(i + n) mod 4`; in particular four steps return to the start. */
  lemma AdvanceIsModular(i: nat, n: nat)
    requires i < SlideCount
    ensures Advance(i, n) == (i + n) % SlideCount
    ensures n % SlideCount == 0 ==> Advance(i, n) == i
  {
    AdvanceMod(i, n);
    if n % SlideCount == 0 {
      assert n == n / SlideCount * SlideCount;
    }
  }

  lemma {:induction false} AdvanceMod(i: nat, n: nat)
    requires i < SlideCount
    ensures Advance(i, n) == (i + n) % SlideCount
  {
    if n > 0 {
      AdvanceMod(i, n - 1);
      StepMod(i + n - 1, Advance(i, n - 1));
    }
  }

  /** One step from the residue of `m` is the residue of `m + 1`. */
  lemma StepMod(m: nat, r: nat)
    requires r == m % SlideCount
    ensures NextIndex(r) == (m + 1) % SlideCount
  {
  }

  class HeroCarousel {
    var currentSlide: nat
    var isPlaying: bool
    var isPaused: bool
    /** `timerRef.current`: the handle of the interval last started, or `null`. */
    var timerRef: Option<nat>
    /** The intervals the browser has scheduled and not yet cleared. */
    var activeIntervals: set<nat>
    /** The handle the next `setInterval` returns. */
    var nextHandle: nat

    /**
     * The slide is one of the four, and the only scheduled interval is the one
     * `timerRef` holds: at most one interval runs at any time.
     */
    predicate Valid()
      reads this
    {
      && currentSlide < SlideCount
      && 1 <= nextHandle
      && (timerRef.Some? ==> 1 <= timerRef.value < nextHandle)
      && activeIntervals == (if timerRef.Some? then {timerRef.value} else {})
    }

    /** The gating rule: an interval is scheduled exactly while playing and not hovered. */
    predicate Gated()
      reads this
    {
      timerRef.Some? <==> isPlaying && !isPaused
    }

    /** Mounting: slide 0, playing, not hovered; the effect then starts the interval. */
    constructor ()
      ensures Valid() && Gated()
      ensures currentSlide == 0 && isPlaying && !isPaused && timerRef.Some?
    {
      currentSlide := 0;
      isPlaying := true;
      isPaused := false;
      timerRef := None;
      activeIntervals := {};
      nextHandle := 1;
      new;
      SyncTimer();
    }

    /** `startTimer`: clears the interval held, if any, and schedules a new one. */
    method StartTimer()
      requires Valid()
      modifies this`timerRef, this`activeIntervals, this`nextHandle
      ensures Valid()
      ensures timerRef == Some(old(nextHandle)) && activeIntervals == {old(nextHandle)}
      ensures nextHandle == old(nextHandle) + 1
    {
      if timerRef.Some? {
        activeIntervals := activeIntervals - {timerRef.value};
      }
      timerRef := Some(nextHandle);
      activeIntervals := activeIntervals + {nextHandle};
      nextHandle := nextHandle + 1;
    }

    /** `stopTimer`: clears the interval held, if any, and forgets it. */
    method StopTimer()
      requires Valid()
      modifies this`timerRef, this`activeIntervals
      ensures Valid()
      ensures timerRef == None && activeIntervals == {}
    {
      if timerRef.Some? {
        activeIntervals := activeIntervals - {timerRef.value};
        timerRef := None;
      }
    }

    /**
     * The effect on `[isPlaying, isPaused]`: the cleanup of its previous run
     * stops the timer, then the timer is started when playing and not hovered
     * and stopped otherwise.
     */
    method SyncTimer()
      requires Valid()
      modifies this`timerRef, this`activeIntervals, this`nextHandle
      ensures Valid() && Gated()
    {
      StopTimer();
      if isPlaying && !isPaused {
        StartTimer();
      } else {
        StopTimer();
      }
    }

    /** A tick of interval `h`: only a scheduled interval moves the slide, one step forward. */
    method Tick(h: nat)
      requires Valid()
      modifies this`currentSlide
      ensures Valid()
      ensures h in activeIntervals ==> currentSlide == NextIndex(old(currentSlide))
      ensures h !in activeIntervals ==> currentSlide == old(currentSlide)
      ensures Gated() && isPaused ==> currentSlide == old(currentSlide)
    {
      if h in activeIntervals {
        currentSlide := NextIndex(currentSlide);
      }
    }

    /** `togglePlayPause`: flips `isPlaying`, which re-runs the effect. */
    method TogglePlayPause()
      requires Valid()
      modifies this`isPlaying, this`timerRef, this`activeIntervals, this`nextHandle
      ensures Valid() && Gated()
      ensures isPlaying == !old(isPlaying)
    {
      isPlaying := !isPlaying;
      SyncTimer();
    }

    /** `onMouseEnter` / `onMouseLeave`: sets `isPaused`; the effect re-runs only when the value changes. */
    method SetPaused(paused: bool)
      requires Valid()
      modifies this`isPaused, this`timerRef, this`activeIntervals, this`nextHandle
      ensures Valid()
      ensures isPaused == paused
      ensures old(isPaused) != paused ==> Gated()
      ensures old(isPaused) == paused ==> timerRef == old(timerRef) && activeIntervals == old(activeIntervals)
    {
      if isPaused != paused {
        isPaused := paused;
        SyncTimer();
      }
    }

    /**
     * The timer restart at the end of `nextSlide`, `prevSlide` and `goToSlide`
     * as the source writes it: whenever playing, even while hovered.
     */
    method RestartAsWritten()
      requires Valid()
      modifies this`timerRef, this`activeIntervals, this`nextHandle
      ensures Valid()
      ensures isPlaying ==> timerRef == Some(old(nextHandle)) && activeIntervals == {old(nextHandle)}
      ensures isPlaying ==> nextHandle == old(nextHandle) + 1
      ensures !isPlaying ==> timerRef == old(timerRef) && activeIntervals == old(activeIntervals)
    {
      if isPlaying {
        StartTimer();
      }
    }

    /**
     * The restart as evidently intended: the interval is restarted (so the
     * new slide stays up for a full period) only when it ought to run.
     */
    method Restart()
      requires Valid() && Gated()
      modifies this`timerRef, this`activeIntervals, this`nextHandle
      ensures Valid() && Gated()
      ensures isPlaying && !isPaused ==> timerRef == Some(old(nextHandle)) && activeIntervals == {old(nextHandle)}
      ensures isPlaying && !isPaused ==> nextHandle == old(nextHandle) + 1
      ensures !(isPlaying && !isPaused) ==> timerRef == old(timerRef) && activeIntervals == old(activeIntervals)
    {
      if isPlaying && !isPaused {
        StartTimer();
      }
    }

    /** `nextSlide` as the source writes it. */
    method NextSlideAsWritten()
      requires Valid()
      modifies this`currentSlide, this`timerRef, this`activeIntervals, this`nextHandle
      ensures Valid()
      ensures currentSlide == NextIndex(old(currentSlide))
      ensures isPlaying ==> timerRef == Some(old(nextHandle)) && activeIntervals == {old(nextHandle)}
      ensures isPlaying ==> nextHandle == old(nextHandle) + 1
      ensures !isPlaying ==> timerRef == old(timerRef) && activeIntervals == old(activeIntervals)
    {
      currentSlide := NextIndex(currentSlide);
      RestartAsWritten();
    }

    /** `prevSlide` as the source writes it. */
    method PrevSlideAsWritten()
      requires Valid()
      modifies this`currentSlide, this`timerRef, this`activeIntervals, this`nextHandle
      ensures Valid()
      ensures currentSlide == PrevIndex(old(currentSlide))
      ensures isPlaying ==> timerRef == Some(old(nextHandle)) && activeIntervals == {old(nextHandle)}
      ensures isPlaying ==> nextHandle == old(nextHandle) + 1
      ensures !isPlaying ==> timerRef == old(timerRef) && activeIntervals == old(activeIntervals)
    {
      currentSlide := PrevIndex(currentSlide);
      RestartAsWritten();
    }

    /** `goToSlide(index)` as the source writes it. */
    method GoToSlideAsWritten(index: nat)
      requires Valid()
      requires index < SlideCount
      modifies this`currentSlide, this`timerRef, this`activeIntervals, this`nextHandle
      ensures Valid()
      ensures currentSlide == index
      ensures isPlaying ==> timerRef == Some(old(nextHandle)) && activeIntervals == {old(nextHandle)}
      ensures isPlaying ==> nextHandle == old(nextHandle) + 1
      ensures !isPlaying ==> timerRef == old(timerRef) && activeIntervals == old(activeIntervals)
    {
      currentSlide := index;
      RestartAsWritten();
    }

    /** `nextSlide` (with the corrected restart). */
    method NextSlide()
      requires Valid() && Gated()
      modifies this`currentSlide, this`timerRef, this`activeIntervals, this`nextHandle
      ensures Valid() && Gated()
      ensures currentSlide == NextIndex(old(currentSlide))
      ensures isPlaying && !isPaused ==> timerRef == Some(old(nextHandle)) && activeIntervals == {old(nextHandle)}
      ensures isPlaying && !isPaused ==> nextHandle == old(nextHandle) + 1
      ensures !(isPlaying && !isPaused) ==> timerRef == old(timerRef) && activeIntervals == old(activeIntervals)
    {
      currentSlide := NextIndex(currentSlide);
      Restart();
    }

    /** `prevSlide` (with the corrected restart). */
    method PrevSlide()
      requires Valid() && Gated()
      modifies this`currentSlide, this`timerRef, this`activeIntervals, this`nextHandle
      ensures Valid() && Gated()
      ensures currentSlide == PrevIndex(old(currentSlide))
      ensures isPlaying && !isPaused ==> timerRef == Some(old(nextHandle)) && activeIntervals == {old(nextHandle)}
      ensures isPlaying && !isPaused ==> nextHandle == old(nextHandle) + 1
      ensures !(isPlaying && !isPaused) ==> timerRef == old(timerRef) && activeIntervals == old(activeIntervals)
    {
      currentSlide := PrevIndex(currentSlide);
      Restart();
    }

    /** `goToSlide(index)` from an indicator dot (with the corrected restart). */
    method GoToSlide(index: nat)
      requires Valid() && Gated()
      requires index < SlideCount
      modifies this`currentSlide, this`timerRef, this`activeIntervals, this`nextHandle
      ensures Valid() && Gated()
      ensures currentSlide == index
      ensures isPlaying && !isPaused ==> timerRef == Some(old(nextHandle)) && activeIntervals == {old(nextHandle)}
      ensures isPlaying && !isPaused ==> nextHandle == old(nextHandle) + 1
      ensures !(isPlaying && !isPaused) ==> timerRef == old(timerRef) && activeIntervals == old(activeIntervals)
    {
      currentSlide := index;
      Restart();
    }
  }

  /**
   * The as-written restart breaks the pause on hover: hover over the
   * carousel, press an arrow, and an interval is scheduled while paused, so
   * the next tick moves the slide under the pointer.
   */
  method HoverThenArrowAsWritten() returns (c: HeroCarousel, before: nat)
    ensures c.Valid() && c.isPlaying && c.isPaused
    ensures !c.Gated() && c.timerRef.Some?
    ensures c.currentSlide != before
  {
    c := new HeroCarousel();
    c.SetPaused(true);
    c.NextSlideAsWritten();
    before := c.currentSlide;
    c.Tick(c.timerRef.value);
  }

  /** With the corrected restart the same presses leave no interval running, and a tick changes nothing. */
  method HoverThenArrow() returns (c: HeroCarousel, before: nat)
    ensures c.Valid() && c.Gated() && c.isPlaying && c.isPaused
    ensures c.timerRef.None? && c.currentSlide == before
  {
    c := new HeroCarousel();
    c.SetPaused(true);
    c.NextSlide();
    before := c.currentSlide;
    c.Tick(1);
  }
}
