/**
 * The smart cursor: hovering an element with a `data-cursor` attribute sets
 * the cursor text, which is revealed by a scramble interval whose counter
 * advances half a position per tick; the cursor's content flips to the
 * left of the pointer on the right 40% of the window.
 */
module SmartCursor {
  import opened Wrappers
  import opened Scramble

  /**
   * `handleHover`: the `data-cursor` value of the nearest ancestor that has
   * one (`nearest`), else the empty text; an interactive ancestor without
   * that attribute also yields the empty text.
   */
  function HoverText(nearest: Option<string>, interactive: bool): (t: string)
  {
    if nearest.Some? then nearest.value
    else if interactive then ""
    else ""
  }

  /** Only the `data-cursor` attribute decides the text. */
  lemma HoverTextSpec(nearest: Option<string>, interactive: bool)
    ensures HoverText(nearest, interactive) == HoverText(nearest, !interactive)
    ensures nearest.None? ==> HoverText(nearest, interactive) == ""
    ensures nearest.Some? ==> HoverText(nearest, interactive) == nearest.value
  {
  }

  /** The horizontal scale of the content: -1 (flipped) right of 60% of the width. */
  function FlipScale(clientX: real, innerWidth: real): (scale: int)
    ensures scale == -1 || scale == 1
    ensures scale == -1 <==> clientX > innerWidth * 0.6
  {
    if clientX > innerWidth * 0.6 then -1 else 1
  }

  /** The cursor's text state; the counter is kept as a count of half steps. */
  class Cursor {
    var cursorText: string
    var displayText: string
    /** `2 * counter`. */
    var halfSteps: nat
    var running: bool

    constructor ()
      ensures cursorText == "" && displayText == "" && halfSteps == 0 && !running
    {
      cursorText, displayText, halfSteps, running := "", "", 0, false;
    }

    /**
     * The effect on `[cursorText]`: the previous interval is cleared; a
     * non-empty text starts a new one from counter 0, the empty text blanks
     * the display. React runs it only when `cursorText` changes (and on
     * mount), so it stands for a hover whose text differs from the current
     * one; hovering another element with the same text does not call it.
     */
    method SetText(text: string)
      modifies this
      ensures cursorText == text && halfSteps == 0
      ensures text != "" ==> running && displayText == old(displayText)
      ensures text == "" ==> !running && displayText == ""
    {
      cursorText := text;
      halfSteps := 0;
      running := text != "";
      if text == "" {
        displayText := "";
      }
    }

    /**
     * One 30 ms tick: scramble with positions below the counter locked, then
     * advance the counter by one half; when it reaches the text's length the
     * interval stops on the exact text.
     */
    method Tick(noise: seq<real>)
      requires running && |noise| == |cursorText| && ValidNoise(noise)
      modifies this`displayText, this`halfSteps, this`running
      ensures halfSteps == old(halfSteps) + 1
      ensures halfSteps >= 2 * |cursorText| ==> displayText == cursorText && !running
      ensures halfSteps < 2 * |cursorText| ==>
        displayText == Scrambled(cursorText, old(halfSteps) as real / 2.0, noise) && running
    {
      var scrambled := Scrambled(cursorText, halfSteps as real / 2.0, noise);
      displayText := scrambled;
      halfSteps := halfSteps + 1;
      if halfSteps as real / 2.0 >= |cursorText| as real {
        running := false;
        displayText := cursorText;
      }
    }
  }

  /**
   * Hovering a target with text `t` and letting the interval run: tick `k`
   * (counting from 0) shows `t` with exactly the positions `j` where
   * `2j < k` locked, and the interval stops on `t` itself at tick
   * `2|t| - 1`, after `2|t|` ticks in all.
   */
  method Reveal(t: string, noise: seq<seq<real>>) returns (frames: seq<string>, display: string, running: bool)
    requires t != "" && |noise| == 2 * |t|
    requires forall k :: 0 <= k < |noise| ==> |noise[k]| == |t| && ValidNoise(noise[k])
    ensures |frames| == 2 * |t| - 1 && forall k :: 0 <= k < |frames| ==> |frames[k]| == |t|
    ensures forall k, j :: 0 <= k < |frames| && 0 <= j < |t| && 2 * j < k ==> frames[k][j] == t[j]
    ensures forall k, j :: 0 <= k < |frames| && 0 <= j < |t| && 2 * j >= k ==> frames[k][j] in Chars
    ensures display == t && !running
  {
    var c := new Cursor();
    c.SetText(t);
    frames := [];
    while c.halfSteps < 2 * |t| - 1
      invariant c.cursorText == t && c.running && c.halfSteps == |frames| <= 2 * |t| - 1
      invariant forall k :: 0 <= k < |frames| ==> |frames[k]| == |t|
      invariant forall k, j :: 0 <= k < |frames| && 0 <= j < |t| && 2 * j < k ==> frames[k][j] == t[j]
      invariant forall k, j :: 0 <= k < |frames| && 0 <= j < |t| && 2 * j >= k ==> frames[k][j] in Chars
      decreases 2 * |t| - c.halfSteps
    {
      var k := c.halfSteps;
      c.Tick(noise[k]);
      forall j | 0 <= j < |t|
        ensures 2 * j < k ==> c.displayText[j] == t[j]
        ensures 2 * j >= k ==> c.displayText[j] in Chars
      {
        assert 2 * j < k <==> (j as real) < k as real / 2.0;
      }
      frames := frames + [c.displayText];
    }
    c.Tick(noise[2 * |t| - 1]);
    display, running := c.displayText, c.running;
  }
}
