/** The testimonial typewriter: once its paragraph scrolls into view, a timer
    reveals the quote one character per tick. The browser counts UTF-16 code
    units, and a Dafny `string` counts Unicode characters; the two agree for
    text whose characters all lie in the Basic Multilingual Plane. */
module Typewriter {
  import opened Text

  function Min(a: int, b: int): int { if a < b then a else b }

  /** The text on show after `k` ticks. */
  function Shown(text: string, k: nat): (r: string)
    ensures |r| == Min(k, |text|)
    ensures StartsWith(text, r)
  {
    text[..Min(k, |text|)]
  }

  /** The revealed text only grows: what was shown stays a prefix of what is
      shown later. */
  lemma ShownGrows(text: string, j: nat, k: nat)
    requires j <= k
    ensures StartsWith(Shown(text, k), Shown(text, j))
  {
    assert Shown(text, k)[..|Shown(text, j)|] == text[..Min(j, |text|)];
  }

  /** Once every character has been revealed, the whole text is shown. */
  lemma ShownComplete(text: string, k: nat)
    requires k >= |text|
    ensures Shown(text, k) == text
  {
    assert text[..|text|] == text;
  }

  class TypewriterText {
    const text: string
    var isInView: bool
    var displayed: string
    /** The effect's counter of ticks. */
    var i: nat
    /** Whether the interval timer is set. */
    var running: bool

    /** The shown text is the prefix the counter says; the timer runs only
        while characters remain (an empty text still gets its one tick), and
        a timer that has stopped after ticking left the whole text shown. */
    ghost predicate Valid()
      reads this
    {
      && displayed == Shown(text, i)
      && (running ==> i == 0 || i < |text|)
      && (!running && i > 0 ==> i >= |text|)
      && i <= if |text| == 0 then 1 else |text|
    }

    constructor(text: string)
      ensures this.text == text && Valid()
      ensures !isInView && displayed == "" && i == 0 && !running
    {
      this.text := text;
      isInView, displayed, i, running := false, "", 0, false;
    }

    /** The effect: nothing while out of view, else restart from nothing. */
    method RunEffect()
      requires Valid()
      modifies this
      ensures Valid()
      ensures !old(isInView) ==>
        displayed == old(displayed) && i == old(i) && running == old(running) && isInView == old(isInView)
      ensures old(isInView) ==> displayed == "" && i == 0 && running && isInView
    {
      if isInView {
        displayed := "";
        i := 0;
        running := true;
      }
    }

    /** The paragraph scrolls into view for the first time; the effect runs
        again. Later visibility changes are ignored. */
    method ComeIntoView()
      requires Valid()
      modifies this
      ensures Valid() && isInView
      ensures old(isInView) ==> displayed == old(displayed) && i == old(i) && running == old(running)
      ensures !old(isInView) ==> displayed == "" && i == 0 && running
    {
      if !isInView {
        isInView := true;
        RunEffect();
      }
    }

    /** One timer tick: show one more character and stop at the end. */
    method Tick()
      requires Valid() && running
      modifies this
      ensures Valid()
      ensures i == old(i) + 1 && displayed == Shown(text, i)
      ensures running <==> i < |text|
      ensures isInView == old(isInView)
    {
      displayed := text[..Min(i + 1, |text|)];
      i := i + 1;
      if i >= |text| {
        running := false;
      }
    }

    /** Ticks until the timer stops: the whole text is then shown, after one
        tick per character (one tick for an empty text). */
    method Animate()
      requires Valid() && running
      modifies this
      ensures Valid() && !running && displayed == text
      ensures i == if |text| == 0 then 1 else |text|
      ensures isInView == old(isInView)
    {
      while running
        invariant Valid() && isInView == old(isInView)
        invariant !running ==> i >= 1
        decreases (if |text| == 0 then 1 else |text|) - i
      {
        Tick();
      }
      ShownComplete(text, i);
    }
  }
}
