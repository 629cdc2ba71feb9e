/**
 * The type/delete loop of the V1-RG entry page: one timer at a time drives
 * `type`, which shows one more character of "PHANTOM_TERMINAL" every 150 ms,
 * waits 3000 ms on the full text, deletes one character every 50 ms, and
 * starts over 150 ms after the text is empty.
 */
module TypeLoop {

  const FullText: string := "PHANTOM_TERMINAL"
  const StartDelayMs: nat := 500
  const TypeDelayMs: nat := 150
  const DeleteDelayMs: nat := 50
  const HoldDelayMs: nat := 3000

  /** The pending timer: its delay, and whether it switches to deleting first. */
  datatype Timer = Timer(delayMs: nat, thenDelete: bool)

  /** The closure variables `i` and `isDeleting`, the shown text, the timer. */
  datatype LoopState = LoopState(i: int, deleting: bool, shown: string, pending: Timer)

  const Initial := LoopState(0, false, "", Timer(StartDelayMs, false))

  /**
   * The loop's invariant: the counter stays within the text, the shown
   * text is the first `i` characters, deleting never sits at 0, and typing
   * at the full length is always the 3000 ms wait before deleting.
   */
  predicate Inv(s: LoopState)
  {
    && 0 <= s.i <= |FullText|
    && s.shown == FullText[..s.i]
    && (s.deleting ==> s.i > 0 && !s.pending.thenDelete)
    && (!s.deleting && s.i == |FullText| <==> s.pending.thenDelete)
  }

  /** JavaScript `substring(0, n)`: a negative end is taken as 0. */
  function Prefix(n: int): string
  {
    if n <= 0 then "" else if n >= |FullText| then FullText else FullText[..n]
  }

  /** `type()` run on the closure state. */
  function Type(i: int, deleting: bool): (s: LoopState)
  {
    var current := if deleting then Prefix(i - 1) else Prefix(i + 1);
    var i' := if deleting then i - 1 else i + 1;
    if !deleting && i' == |FullText| then LoopState(i', deleting, current, Timer(HoldDelayMs, true))
    else if deleting && i' == 0 then LoopState(i', false, current, Timer(TypeDelayMs, false))
    else LoopState(i', deleting, current, Timer(if deleting then DeleteDelayMs else TypeDelayMs, false))
  }

  /** The pending timer fires: the hold timer sets `isDeleting` first. */
  function Fire(s: LoopState): LoopState
  {
    Type(s.i, s.deleting || s.pending.thenDelete)
  }

  /**
   * Each firing keeps the invariant and changes the shown text by exactly
   * one character: one more while typing, one fewer while deleting.
   */
  lemma FirePreserves(s: LoopState)
    requires Inv(s)
    ensures Inv(Fire(s))
    ensures var t := Fire(s);
      if s.deleting || s.pending.thenDelete
      then |t.shown| + 1 == |s.shown| && t.shown <= s.shown
      else |t.shown| == |s.shown| + 1 && s.shown <= t.shown
  {
    var t := Fire(s);
    if s.deleting || s.pending.thenDelete {
      assert t.shown == FullText[..s.i - 1];
    } else {
      assert t.shown == FullText[..s.i + 1];
    }
  }

  /**
   * The timer chosen by each firing: the 3000 ms hold on reaching the full
   * text while typing, 150 ms after the text empties, and otherwise 50 ms
   * between deletions and 150 ms between typed characters.
   */
  lemma FireDelays(s: LoopState)
    requires Inv(s)
    ensures var t := Fire(s);
      && (t.i == |FullText| && !t.deleting ==> t.pending == Timer(HoldDelayMs, true))
      && (t.i == 0 ==> !t.deleting && t.pending == Timer(TypeDelayMs, false))
      && (0 < t.i < |FullText| ==> t.pending == Timer(if t.deleting then DeleteDelayMs else TypeDelayMs, false))
  {
  }

  /** Firing `n` timers in a row. */
  function FireN(s: LoopState, n: nat): LoopState
    decreases n
  {
    if n == 0 then s else FireN(Fire(s), n - 1)
  }

  /** While typing below the full length, `k` firings type `k` more characters. */
  lemma {:induction false} TypingRun(s: LoopState, k: nat)
    requires Inv(s) && !s.deleting && !s.pending.thenDelete && s.i + k <= |FullText|
    ensures FireN(s, k).i == s.i + k && FireN(s, k).shown == FullText[..s.i + k]
    ensures k > 0 ==> !FireN(s, k).deleting
    ensures k > 0 ==>
      FireN(s, k).pending == if s.i + k == |FullText| then Timer(HoldDelayMs, true) else Timer(TypeDelayMs, false)
    ensures Inv(FireN(s, k))
    decreases k
  {
    if k > 0 {
      FirePreserves(s);
      var t := Fire(s);
      if k > 1 {
        TypingRun(t, k - 1);
      }
    }
  }

  /**
   * From the page's start, sixteen firings type the whole text, and the
   * timer then pending is the 3000 ms hold before deleting.
   */
  lemma FirstPass()
    ensures FireN(Initial, |FullText|).shown == FullText
    ensures FireN(Initial, |FullText|).pending == Timer(HoldDelayMs, true)
  {
    TypingRun(Initial, |FullText|);
    var s := FireN(Initial, |FullText|);
    assert s.i == |FullText| && !s.deleting;
  }

  /** The page's typing state. */
  class Loop {
    var i: int
    var deleting: bool
    var shown: string
    var pending: Timer

    function State(): LoopState
      reads this
    {
      LoopState(i, deleting, shown, pending)
    }

    /** Mounting: nothing shown, the first `type` 500 ms out. */
    constructor ()
      ensures State() == Initial && Inv(State())
    {
      i, deleting, shown, pending := 0, false, "", Timer(StartDelayMs, false);
    }

    /** The pending timer fires and runs `type`. */
    method FireTimer()
      requires Inv(State())
      modifies this
      ensures State() == Fire(old(State()))
      ensures Inv(State())
    {
      FirePreserves(State());
      if pending.thenDelete {
        deleting := true;
      }
      var current := if deleting then Prefix(i - 1) else Prefix(i + 1);
      shown := current;
      i := if deleting then i - 1 else i + 1;
      if !deleting && i == |FullText| {
        pending := Timer(HoldDelayMs, true);
      } else if deleting && i == 0 {
        deleting := false;
        pending := Timer(TypeDelayMs, false);
      } else {
        pending := Timer(if deleting then DeleteDelayMs else TypeDelayMs, false);
      }
    }
  }
}
