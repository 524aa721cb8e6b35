/**
 * The zoom of the image view, in percent (img_size * 100): inc_img_size and dec_img_size step it
 * by 10 within the slider's range 50..200, reset_img_size goes back to 100.
 */
module Zoom {

  const Step := 10
  const MinPercent := 50
  const MaxPercent := 200
  const DefaultPercent := 100

  /** inc_img_size: one step larger, capped at the largest zoom. */
  function Inc(p: int): (r: int)
    ensures r <= MaxPercent
    ensures p <= MaxPercent ==> p <= r
    ensures r - p <= Step
  {
    if p + Step < MaxPercent then p + Step else MaxPercent
  }

  /** dec_img_size: one step smaller, held at the smallest zoom. */
  function Dec(p: int): (r: int)
    ensures MinPercent <= r
    ensures MinPercent <= p ==> r <= p
    ensures p - r <= Step
  {
    if p - Step > MinPercent then p - Step else MinPercent
  }

  predicate InRange(p: int) {
    MinPercent <= p <= MaxPercent
  }

  /** Both steps stay within the slider's range. */
  lemma StepsStayInRange(p: int)
    requires InRange(p)
    ensures InRange(Inc(p)) && InRange(Dec(p))
  {
  }

  /** Zooming in and back out returns to the same size, unless the cap was hit. */
  lemma DecUndoesInc(p: int)
    requires MinPercent <= p <= MaxPercent - Step
    ensures Dec(Inc(p)) == p
  {
  }

  /** Zooming out and back in returns to the same size, unless the floor was hit. */
  lemma IncUndoesDec(p: int)
    requires MinPercent + Step <= p <= MaxPercent
    ensures Inc(Dec(p)) == p
  {
  }

  /** Pressing zoom-in n times. */
  function IncTimes(p: int, n: nat): int
    decreases n
  {
    if n == 0 then p else IncTimes(Inc(p), n - 1)
  }

  /** n presses of zoom-in add n steps until the cap, and then stay there. */
  lemma {:induction false} IncTimesIsCapped(p: int, n: nat)
    requires p <= MaxPercent
    ensures IncTimes(p, n) == if p + n * Step < MaxPercent then p + n * Step else MaxPercent
    decreases n
  {
    if n > 0 {
      IncTimesIsCapped(Inc(p), n - 1);
    }
  }

  /** Pressing zoom-out n times. */
  function DecTimes(p: int, n: nat): int
    decreases n
  {
    if n == 0 then p else DecTimes(Dec(p), n - 1)
  }

  /** n presses of zoom-out take n steps off until the floor, and then stay there. */
  lemma {:induction false} DecTimesIsFloored(p: int, n: nat)
    requires MinPercent <= p
    ensures DecTimes(p, n) == if p - n * Step > MinPercent then p - n * Step else MinPercent
    decreases n
  {
    if n > 0 {
      DecTimesIsFloored(Dec(p), n - 1);
    }
  }
}
