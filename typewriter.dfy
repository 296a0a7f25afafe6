/**
 * The typing effect for the hero taglines (class TypeWriter in script.js).
 *
 * A TypeWriter cycles through a list of strings: it types the current string
 * one character per tick, holds it for `wait` milliseconds, deletes it one
 * character per tick, and then moves on to the next string, wrapping around
 * at the end of the list. Each tick writes a prefix of the current string into
 * the target element and schedules the next tick after a delay.
 *
 * The element's text and the pending timer are fields of the class; the timer
 * itself is not modelled (see README).
 */
module Typing {

  /** Delay after typing one character, in milliseconds. */
  const TypeDelay := 100
  /** Delay after deleting one character. */
  const DeleteDelay := 50
  /** Delay after the last character is deleted, before the next string starts. */
  const NextTextDelay := 500
  /** The constructor's default hold time. */
  const DefaultWait := 3000

  /** `k` clamped into [0, len], as String.prototype.substring treats its bounds. */
  function Clamp(k: int, len: nat): (c: nat)
    ensures c <= len
    ensures 0 <= k <= len ==> c == k
    ensures k < 0 ==> c == 0
    ensures k > len ==> c == len
  {
    if k < 0 then 0 else if k > len then len else k
  }

  /**
   * JavaScript's `s.substring(start, end)`: both bounds are clamped into
   * [0, |s|], and the smaller of the two is taken as the start.
   */
  function Substring(s: string, start: int, end: int): (r: string)
    ensures 0 <= start <= end <= |s| ==> r == s[start..end]
    ensures start <= 0 ==> r == s[..Clamp(end, |s|)]
    ensures |r| == if Clamp(start, |s|) <= Clamp(end, |s|)
                   then Clamp(end, |s|) - Clamp(start, |s|)
                   else Clamp(start, |s|) - Clamp(end, |s|)
  {
    var a, b := Clamp(start, |s|), Clamp(end, |s|);
    if a <= b then s[a..b] else s[b..a]
  }

  /** The three fields that `type()` updates. */
  datatype Cursor = Cursor(textIndex: int, charIndex: int, isDeleting: bool)

  /** What one call of `type()` does: the text it shows, the delay it schedules, the cursor it leaves. */
  datatype Tick = Tick(shown: string, delay: int, next: Cursor)

  /** The effect only terminates its typing phases when no string is empty. */
  predicate NonEmptyTexts(texts: seq<string>)
  {
    |texts| > 0 && forall i :: 0 <= i < |texts| ==> texts[i] != []
  }

  /**
   * The cursors the effect can be in between two ticks: while typing fewer than
   * all characters of the current string are shown, while deleting at least one.
   */
  predicate Consistent(texts: seq<string>, c: Cursor)
  {
    0 <= c.textIndex < |texts| &&
    if c.isDeleting then 1 <= c.charIndex <= |texts[c.textIndex]|
    else 0 <= c.charIndex < |texts[c.textIndex]|
  }

  /** One call of `type()` on the cursor `c`. */
  function Step(texts: seq<string>, wait: int, c: Cursor): (t: Tick)
    requires 0 <= c.textIndex < |texts|
    // the string index only ever moves on cyclically
    ensures 0 <= t.next.textIndex < |texts|
    ensures t.next.textIndex == c.textIndex || t.next.textIndex == (c.textIndex + 1) % |texts|
    // one character is typed or deleted per tick
    ensures t.next.charIndex == if c.isDeleting then c.charIndex - 1 else c.charIndex + 1
    // the element shows the prefix of the string in force whose length is the new charIndex
    ensures Consistent(texts, c) ==> t.shown == texts[c.textIndex][..t.next.charIndex]
    ensures NonEmptyTexts(texts) && Consistent(texts, c) ==> Consistent(texts, t.next)
    // typing turns into deleting exactly when the whole string is shown, after `wait`
    ensures !c.isDeleting ==>
              (t.next.isDeleting <==> c.charIndex + 1 == |texts[c.textIndex]|)
    ensures !c.isDeleting && t.next.isDeleting ==> t.delay == wait && t.next.textIndex == c.textIndex
    // deleting turns into typing the next string exactly when nothing is left, after 500 ms
    ensures c.isDeleting ==> (!t.next.isDeleting <==> c.charIndex == 1)
    ensures c.isDeleting && !t.next.isDeleting ==>
              t.delay == NextTextDelay && t.next.textIndex == (c.textIndex + 1) % |texts|
    // every other tick keeps the mode and the string, at the mode's pace
    ensures t.next.isDeleting == c.isDeleting ==>
              t.next.textIndex == c.textIndex &&
              t.delay == if c.isDeleting then DeleteDelay else TypeDelay
  {
    var current := texts[c.textIndex];
    var shown := if c.isDeleting then Substring(current, 0, c.charIndex - 1)
                 else Substring(current, 0, c.charIndex + 1);
    var charIndex := if c.isDeleting then c.charIndex - 1 else c.charIndex + 1;
    if !c.isDeleting && charIndex == |current| then
      Tick(shown, wait, Cursor(c.textIndex, charIndex, true))
    else if c.isDeleting && charIndex == 0 then
      Tick(shown, NextTextDelay, Cursor((c.textIndex + 1) % |texts|, charIndex, false))
    else
      Tick(shown, if c.isDeleting then DeleteDelay else TypeDelay, Cursor(c.textIndex, charIndex, c.isDeleting))
  }

  /** The cursor after `n` ticks from `c`. */
  function Run(texts: seq<string>, wait: int, c: Cursor, n: nat): (r: Cursor)
    requires 0 <= c.textIndex < |texts|
    ensures 0 <= r.textIndex < |texts|
    ensures NonEmptyTexts(texts) && Consistent(texts, c) ==> Consistent(texts, r)
    decreases n
  {
    if n == 0 then c else Run(texts, wait, Step(texts, wait, c).next, n - 1)
  }

  /** The sum of the delays scheduled by `n` ticks from `c`. */
  function Elapsed(texts: seq<string>, wait: int, c: Cursor, n: nat): (ms: int)
    requires 0 <= c.textIndex < |texts|
    ensures wait >= 0 ==> ms >= 0
    // with a hold of at least 50 ms, every tick waits at least the deleting pace
    ensures wait >= DeleteDelay ==> ms >= n * DeleteDelay
    decreases n
  {
    if n == 0 then 0
    else
      var t := Step(texts, wait, c);
      t.delay + Elapsed(texts, wait, t.next, n - 1)
  }

  /** Running `a + b` ticks is running `a` ticks and then `b` more. */
  lemma {:induction false} RunSplit(texts: seq<string>, wait: int, c: Cursor, a: nat, b: nat)
    requires 0 <= c.textIndex < |texts|
    ensures Run(texts, wait, c, a + b) == Run(texts, wait, Run(texts, wait, c, a), b)
    ensures Elapsed(texts, wait, c, a + b) ==
            Elapsed(texts, wait, c, a) + Elapsed(texts, wait, Run(texts, wait, c, a), b)
    decreases a
  {
    if a > 0 {
      RunSplit(texts, wait, Step(texts, wait, c).next, a - 1, b);
    }
  }

  /**
   * From any typing cursor, the rest of the string is typed in one tick per
   * missing character, ending in the deleting mode with the whole string shown.
   */
  lemma {:induction false} TypingPhase(texts: seq<string>, wait: int, c: Cursor)
    requires Consistent(texts, c) && !c.isDeleting
    ensures var n := |texts[c.textIndex]| - c.charIndex;
            Run(texts, wait, c, n) == Cursor(c.textIndex, |texts[c.textIndex]|, true) &&
            Elapsed(texts, wait, c, n) == (n - 1) * TypeDelay + wait
    decreases |texts[c.textIndex]| - c.charIndex
  {
    var next := Step(texts, wait, c).next;
    if c.charIndex + 1 < |texts[c.textIndex]| {
      TypingPhase(texts, wait, next);
    }
  }

  /**
   * From any deleting cursor, the shown characters are deleted one per tick,
   * ending at the start of the next string (cyclically) in the typing mode.
   */
  lemma {:induction false} DeletingPhase(texts: seq<string>, wait: int, c: Cursor)
    requires Consistent(texts, c) && c.isDeleting
    ensures Run(texts, wait, c, c.charIndex) == Cursor((c.textIndex + 1) % |texts|, 0, false)
    ensures Elapsed(texts, wait, c, c.charIndex) == (c.charIndex - 1) * DeleteDelay + NextTextDelay
    decreases c.charIndex
  {
    var next := Step(texts, wait, c).next;
    if c.charIndex > 1 {
      DeletingPhase(texts, wait, next);
    }
  }

  /**
   * A whole cycle over the string `texts[i]` of length n takes 2n ticks and
   * n - 1 typing delays, the hold, n - 1 deleting delays and the pause before
   * the next string, and ends at the start of the next string.
   */
  lemma FullCycle(texts: seq<string>, wait: int, i: int)
    requires 0 <= i < |texts| && texts[i] != []
    ensures var n := |texts[i]|;
            Run(texts, wait, Cursor(i, 0, false), 2 * n) == Cursor((i + 1) % |texts|, 0, false) &&
            Elapsed(texts, wait, Cursor(i, 0, false), 2 * n) ==
              (n - 1) * (TypeDelay + DeleteDelay) + wait + NextTextDelay
  {
    var n, c := |texts[i]|, Cursor(i, 0, false);
    TypingPhase(texts, wait, c);
    DeletingPhase(texts, wait, Cursor(i, n, true));
    RunSplit(texts, wait, c, n, n);
  }

  /**
   * With an empty current string the typing mode is never left: charIndex
   * grows past the length 0 and never equals it, so the effect types forever.
   */
  lemma {:induction false} EmptyTextNeverFinishes(texts: seq<string>, wait: int, c: Cursor, n: nat)
    requires 0 <= c.textIndex < |texts| && texts[c.textIndex] == []
    requires !c.isDeleting && c.charIndex >= 0
    ensures Run(texts, wait, c, n) == Cursor(c.textIndex, c.charIndex + n, false)
    decreases n
  {
    if n > 0 {
      EmptyTextNeverFinishes(texts, wait, Step(texts, wait, c).next, n - 1);
    }
  }

  class TypeWriter {
    const texts: seq<string>
    const wait: int
    var textIndex: int
    var charIndex: int
    var isDeleting: bool
    /** The text content of the target element. */
    var shown: string
    /** The delay of the timer that will call Type next. */
    var pendingDelay: int

    function State(): Cursor
      reads this
    {
      Cursor(textIndex, charIndex, isDeleting)
    }

    ghost predicate Valid()
      reads this
    {
      NonEmptyTexts(texts) && Consistent(texts, State()) &&
      shown == texts[textIndex][..charIndex]
    }

    /** Starts at the first string in the typing mode and performs the first tick at once. */
    constructor (texts: seq<string>, wait: int := DefaultWait)
      requires NonEmptyTexts(texts)
      ensures Valid() && this.texts == texts && this.wait == wait
      ensures var t := Step(texts, wait, Cursor(0, 0, false));
              State() == t.next && shown == t.shown && pendingDelay == t.delay
    {
      this.texts := texts;
      this.wait := wait;
      textIndex, charIndex, isDeleting := 0, 0, false;
      shown, pendingDelay := "", 0;
      new;
      Type();
    }

    /** One tick of the effect. */
    method Type()
      requires Valid()
      modifies this
      ensures Valid()
      ensures var t := Step(texts, wait, old(State()));
              State() == t.next && shown == t.shown && pendingDelay == t.delay
    {
      var currentText := texts[textIndex];
      if isDeleting {
        shown := Substring(currentText, 0, charIndex - 1);
        charIndex := charIndex - 1;
      } else {
        shown := Substring(currentText, 0, charIndex + 1);
        charIndex := charIndex + 1;
      }
      var typeSpeed := if isDeleting then DeleteDelay else TypeDelay;
      if !isDeleting && charIndex == |currentText| {
        typeSpeed := wait;
        isDeleting := true;
      } else if isDeleting && charIndex == 0 {
        isDeleting := false;
        textIndex := (textIndex + 1) % |texts|;
        typeSpeed := NextTextDelay;
      }
      pendingDelay := typeSpeed;
    }
  }
}
