/** From VxWorks priorities to pthread priorities (translate_priority, lib/ltaskLib.c:481-523). */
module Priorities {

  /** C division and remainder: towards zero. */
  function CDiv(a: int, b: int): int
    requires b > 0
  {
    if a >= 0 then a / b else -((-a) / b)
  }

  function CMod(a: int, b: int): (r: int)
    requires b > 0
    ensures -b < r < b
  {
    if a >= 0 then a % b else -((-a) % b)
  }

  /** `v` rescaled to the priority range `min..max` of a scheduling policy. */
  function Translate(v: int, min: int, max: int): int
    requires 1 <= min <= max - 2
  {
    var scaled := CDiv((255 - v) * max, 256);
    var wrapped := CMod(scaled, max - 1);
    if wrapped < min then min else wrapped
  }

  /** Whatever the argument, the two top levels stay reserved. */
  lemma InRange(v: int, min: int, max: int)
    requires 1 <= min <= max - 2
    ensures min <= Translate(v, min, max) <= max - 2
  {}

  /** Numbers above 255 are as unimportant as can be. */
  lemma OutOfRange(v: int, min: int, max: int)
    requires 1 <= min <= max - 2 && v > 255
    ensures Translate(v, min, max) == min
  {
    hide CDiv, CMod;
    NegativeProduct(255 - v, max);
    NotPositive((255 - v) * max, max - 1);
  }

  lemma NegativeProduct(a: int, b: int)
    requires a < 0 < b
    ensures a * b < 0
  {}

  lemma NotPositive(a: int, m: int)
    requires a < 0 < m
    ensures CMod(CDiv(a, 256), m) <= 0
  {
    NotPositiveQuotient(a);
    hide CDiv;
  }

  lemma NotPositiveQuotient(a: int)
    requires a < 0
    ensures CDiv(a, 256) <= 0
  {}

  /** The proportional part, before the remainder is taken. */
  function Scaled(v: int, max: int): int
    requires 0 <= v <= 255 && 3 <= max
  {
    (255 - v) * max / 256
  }

  lemma ScaledReaches(v: int, max: int)
    requires 0 <= v <= 255 && 3 <= max
    ensures 0 <= Scaled(v, max) <= max - 1
    ensures Scaled(v, max) == max - 1 <==> (v + 1) * max <= 256
  {
    var x, q := TwoParts(v, max);
    LastPart(x, q, max);
  }

  lemma TwoParts(v: int, max: int) returns (x: int, q: int)
    requires 0 <= v <= 255 && 0 < max
    ensures x == (255 - v) * max && q == (v + 1) * max && x == 256 * max - q && 0 <= x && 0 < q
  {
    x, q := (255 - v) * max, (v + 1) * max;
    assert (255 - v) * max + (v + 1) * max == 256 * max;
  }

  lemma LastPart(x: int, q: int, max: int)
    requires 0 <= x && 0 < q && x == 256 * max - q
    ensures 0 <= x / 256 <= max - 1
    ensures x / 256 == max - 1 <==> q <= 256
  {}

  /** Inputs with `(v + 1) * max <= 256`, and only they, wrap around to the bottom of the range. */
  lemma WrapsExactlyWhen(v: int, min: int, max: int)
    requires 0 <= v <= 255 && 1 <= min <= max - 2
    ensures (v + 1) * max <= 256 ==> Translate(v, min, max) == min
    ensures (v + 1) * max > 256 ==>
              Translate(v, min, max) == if Scaled(v, max) < min then min else Scaled(v, max)
  {
    hide CMod, CDiv;
    ScaledReaches(v, max);
    ScaledIsCDiv(v, max);
    hide Scaled;
    CModUpTo(Scaled(v, max), max - 1);
  }

  lemma ScaledIsCDiv(v: int, max: int)
    requires 0 <= v <= 255 && 3 <= max
    ensures CDiv((255 - v) * max, 256) == Scaled(v, max)
  {
    assert (255 - v) * max >= 0;
  }

  lemma CModUpTo(s: int, m: int)
    requires 0 <= s <= m && 0 < m
    ensures CMod(s, m) == if s == m then 0 else s
  {}

  lemma ScaledReverses(v: int, w: int, max: int)
    requires 0 <= v < w <= 255 && 3 <= max
    ensures Scaled(v, max) >= Scaled(w, max)
  {
    assert (255 - v) * max == (255 - w) * max + (w - v) * max;
    assert (w - v) * max >= 0;
  }

  /** Which priorities end up at the bottom: those that wrap, and those too unimportant to get further. */
  lemma BottomExactlyWhen(w: int, min: int, max: int)
    requires 0 <= w <= 255 && 1 <= min <= max - 2
    ensures Translate(w, min, max) == min <==> (w + 1) * max <= 256 || (255 - w) * max < (min + 1) * 256
  {
    hide Translate;
    WrapsExactlyWhen(w, min, max);
    ScaledAtMost(w, min, max);
  }

  lemma ScaledAtMost(w: int, min: int, max: int)
    requires 0 <= w <= 255 && 3 <= max
    ensures Scaled(w, max) <= min <==> (255 - w) * max < (min + 1) * 256
  {}

  /**
    A more important VxWorks task (smaller number) never gets the smaller pthread priority, exactly
    unless its own number wraps and the other one's is above the bottom of the range.
  */
  lemma ReversesExactlyWhen(v: int, w: int, min: int, max: int)
    requires 0 <= v < w <= 255 && 1 <= min <= max - 2
    ensures Translate(v, min, max) >= Translate(w, min, max) <==>
              (v + 1) * max > 256 || (w + 1) * max <= 256 || (255 - w) * max < (min + 1) * 256
  {
    hide Translate, Scaled;
    WrapsExactlyWhen(v, min, max);
    WrapsExactlyWhen(w, min, max);
    BottomExactlyWhen(w, min, max);
    ScaledReverses(v, w, max);
    InRange(w, min, max);
    WrapsBelow(v, w, max);
  }

  lemma WrapsBelow(v: int, w: int, max: int)
    requires v <= w && 0 <= max
    ensures (v + 1) * max <= (w + 1) * max
  {
    assert (w + 1) * max == (v + 1) * max + (w - v) * max && (w - v) * max >= 0;
  }

  /** With the 99 levels of Linux, exactly 0 and 1, the two most important, wrap to the bottom. */
  lemma LinuxWraps(v: int)
    requires 0 <= v <= 255
    ensures (v + 1) * 99 <= 256 <==> v <= 1
    ensures v <= 1 ==> Translate(v, 1, 99) == 1 < Translate(2, 1, 99)
  {
    WrapsExactlyWhen(v, 1, 99);
  }
}
