/**
 * The mode selection overlay: choosing the live link or the mock core runs
 * a four-step authentication animation on staggered timers (600 to 1000 ms
 * apart) and navigates to the chosen page 800 ms after the last step.
 * Every timeout is recorded in `timeoutsRef` so that unmounting can clear
 * them all; closing the overlay resets what it shows but leaves the timers
 * running.
 */
module ModeSelector {
  import opened Wrappers
  import opened AuthSchedule

  datatype ModeState = Select | Authenticating
  datatype Mode = Live | Mock

  const Steps: seq<string> := [
    "ESTABLISHING_SECURE_LINK...",
    "VERIFYING_ENCRYPTION_KEYS...",
    "SYNCING_POLARITY...",
    "ACCESS_GRANTED // READY_FOR_DEPLOY"
  ]

  const StepMin: real := 600.0
  const StepSpread: real := 400.0
  const NavigateDelay: real := 800.0

  /** `mode === "live" ? "/v1-rg/live" : "/v1-rg/mock"`. */
  function Route(mode: Mode): (r: string)
    ensures r == "/v1-rg/live" <==> mode == Live
    ensures mode == Mock ==> r == "/v1-rg/mock"
  {
    if mode == Live then "/v1-rg/live" else "/v1-rg/mock"
  }

  /** What a timeout does: append step `index` (`t1`) or navigate (`t2`). */
  datatype Action = AppendStep(index: nat, mode: Mode) | Navigate(mode: Mode)

  /** A pending timeout with its handle. */
  datatype Timer = Timer(id: nat, due: real, action: Action)

  /**
   * The four step timeouts `runAuthSequence` schedules at `now`, with
   * handles from `base` on: step `k` is due after the cumulative delay of
   * the first `k + 1` draws.
   */
  function StepTimers(base: nat, now: real, rs: seq<real>, mode: Mode): (ts: seq<Timer>)
    requires |rs| == |Steps|
    ensures |ts| == |Steps|
    ensures forall k :: 0 <= k < |Steps| ==>
      ts[k] == Timer(base + k, now + Cumulative(rs, StepMin, StepSpread)[k], AppendStep(k, mode))
  {
    var c := Cumulative(rs, StepMin, StepSpread);
    seq(|Steps|, k requires 0 <= k < |Steps| => Timer(base + k, now + c[k], AppendStep(k, mode)))
  }

  /** Every step timer is due after `now`, carries a step index and a handle from `base` on. */
  lemma StepTimersAhead(base: nat, now: real, rs: seq<real>, mode: Mode)
    requires |rs| == |Steps| && ValidDraws(rs)
    ensures forall t :: t in StepTimers(base, now, rs, mode) ==>
      t.due > now && base <= t.id < base + |Steps| && t.action.AppendStep? && t.action.index < |Steps|
  {
    var ts := StepTimers(base, now, rs, mode);
    var c := Cumulative(rs, StepMin, StepSpread);
    CumulativeIncreasing(rs, StepMin, StepSpread);
    forall t | t in ts
      ensures t.due > now && base <= t.id < base + |Steps| && t.action.AppendStep? && t.action.index < |Steps|
    {
      var k :| 0 <= k < |ts| && ts[k] == t;
      assert c[0] > 0.0 && c[0] <= c[k];
    }
  }

  /** The step timers are due in the order of their steps. */
  lemma StepTimersSorted(base: nat, now: real, rs: seq<real>, mode: Mode)
    requires |rs| == |Steps| && ValidDraws(rs)
    ensures forall i, j :: 0 <= i <= j < |Steps| ==>
      StepTimers(base, now, rs, mode)[i].due <= StepTimers(base, now, rs, mode)[j].due
  {
    CumulativeIncreasing(rs, StepMin, StepSpread);
  }

  /** Among the step timers from `f` on, timer `f` is due first. */
  lemma StepTimerEarliest(base: nat, now: real, rs: seq<real>, mode: Mode, f: nat)
    requires |rs| == |Steps| && ValidDraws(rs) && f < |Steps|
    ensures forall j :: f <= j < |Steps| ==>
      StepTimers(base, now, rs, mode)[f].due <= StepTimers(base, now, rs, mode)[j].due
  {
    StepTimersSorted(base, now, rs, mode);
  }

  /** `clearTimeout` of every handle in `ids`: the timers left pending. */
  function Drop(ts: seq<Timer>, ids: seq<nat>): (r: seq<Timer>)
    ensures forall t :: t in r <==> t in ts && t.id !in ids
  {
    if ts == [] then []
    else if ts[0].id in ids then Drop(ts[1..], ids)
    else [ts[0]] + Drop(ts[1..], ids)
  }

  /** Clearing handles one batch after another is clearing them all at once. */
  lemma {:induction false} DropTwice(ts: seq<Timer>, ids1: seq<nat>, ids2: seq<nat>)
    ensures Drop(Drop(ts, ids1), ids2) == Drop(ts, ids1 + ids2)
  {
    if ts != [] {
      DropTwice(ts[1..], ids1, ids2);
      if ts[0].id !in ids1 {
        assert Drop(ts, ids1) == [ts[0]] + Drop(ts[1..], ids1);
        assert Drop(ts, ids1)[1..] == Drop(ts[1..], ids1);
      }
    }
  }

  /** Clearing no handle leaves every timer pending. */
  lemma {:induction false} DropNothing(ts: seq<Timer>)
    ensures Drop(ts, []) == ts
  {
    if ts != [] {
      DropNothing(ts[1..]);
    }
  }

  /** Clearing every handle a timer can have leaves nothing pending. */
  lemma {:induction false} DropAll(ts: seq<Timer>, ids: seq<nat>)
    requires forall t :: t in ts ==> t.id in ids
    ensures Drop(ts, ids) == []
  {
    if ts != [] {
      assert ts[0] in ts;
      DropAll(ts[1..], ids);
    }
  }

  class Selector {
    var state: ModeState
    var authLog: seq<string>
    var selectedMode: Option<Mode>
    var pending: seq<Timer>
    /** `timeoutsRef.current`: every handle ever scheduled, in order. */
    var timeouts: seq<nat>
    var nextId: nat
    var clock: real
    /** Addresses assigned to `window.location.href`. */
    var navigations: seq<string>

    /**
     * Timeout bookkeeping: every pending timer's handle is in `timeouts`,
     * handles are fresh, step indices are in range, and nothing is due in the past.
     */
    ghost predicate Valid()
      reads this
    {
      && (forall t :: t in pending ==> t.id in timeouts && t.due >= clock && t.id < nextId)
      && (forall t :: t in pending && t.action.AppendStep? ==> t.action.index < |Steps|)
      && (forall i :: 0 <= i < |timeouts| ==> timeouts[i] < nextId)
    }

    constructor ()
      ensures Valid()
      ensures state == Select && authLog == [] && selectedMode == None
      ensures pending == [] && timeouts == [] && navigations == [] && nextId == 0 && clock == 0.0
    {
      state, authLog, selectedMode := Select, [], None;
      pending, timeouts, nextId, clock, navigations := [], [], 0, 0.0, [];
    }

    /** The effect on `isOpen` becoming false: the view is reset, timers are not. */
    method Close()
      modifies this`state, this`authLog, this`selectedMode
      ensures state == Select && authLog == [] && selectedMode == None
    {
      state, authLog, selectedMode := Select, [], None;
    }

    /**
     * `handleModeSelect`, offered while selecting: the mode is recorded and
     * `runAuthSequence` schedules the four steps (`rs` being its random
     * draws), pushing each handle onto `timeoutsRef`.
     */
    method ChooseMode(mode: Mode, rs: seq<real>)
      requires Valid() && state == Select
      requires |rs| == |Steps| && ValidDraws(rs)
      modifies this`state, this`selectedMode, this`pending, this`timeouts, this`nextId
      ensures Valid()
      ensures state == Authenticating && selectedMode == Some(mode)
      ensures nextId == old(nextId) + |Steps|
      ensures timeouts == old(timeouts) + seq(|Steps|, k => old(nextId) + k)
      ensures pending == old(pending) + StepTimers(old(nextId), clock, rs, mode)
    {
      selectedMode := Some(mode);
      state := Authenticating;
      var dues := ScheduleDues(clock, rs, StepMin, StepSpread);
      var base := nextId;
      var scheduled := seq(|Steps|, k requires 0 <= k < |Steps| => Timer(base + k, dues[k], AppendStep(k, mode)));
      assert scheduled == StepTimers(base, clock, rs, mode);
      StepTimersAhead(base, clock, rs, mode);
      var added := seq(|Steps|, k => base + k);
      forall t | t in scheduled
        ensures t.id in added
      {
        assert added[t.id - base] == t.id;
      }
      pending := pending + scheduled;
      timeouts := timeouts + added;
      nextId := nextId + |Steps|;
    }

    /**
     * Step timer `k` (`t1`), the earliest one due, fires: its step is
     * appended to the log, and the last step schedules the navigation
     * 800 ms on and pushes that handle too.
     */
    method FireStep(k: nat)
      requires Valid() && k < |pending| && pending[k].action.AppendStep?
      requires forall j :: 0 <= j < |pending| ==> pending[k].due <= pending[j].due
      modifies this`pending, this`clock, this`authLog, this`timeouts, this`nextId
      ensures Valid()
      ensures clock == old(pending[k].due)
      ensures authLog == old(authLog) + [Steps[old(pending[k].action.index)]]
      ensures old(pending[k].action.index) == |Steps| - 1 ==>
        && pending == old(pending[..k] + pending[k + 1..])
                      + [Timer(old(nextId), old(pending[k].due) + NavigateDelay, Navigate(old(pending[k].action.mode)))]
        && timeouts == old(timeouts) + [old(nextId)] && nextId == old(nextId) + 1
      ensures old(pending[k].action.index) != |Steps| - 1 ==>
        pending == old(pending[..k] + pending[k + 1..]) && timeouts == old(timeouts) && nextId == old(nextId)
    {
      var t := pending[k];
      assert forall u :: u in pending[..k] + pending[k + 1..] ==> u in pending;
      pending := pending[..k] + pending[k + 1..];
      clock := t.due;
      authLog := authLog + [Steps[t.action.index]];
      if t.action.index == |Steps| - 1 {
        pending := pending + [Timer(nextId, t.due + NavigateDelay, Navigate(t.action.mode))];
        timeouts := timeouts + [nextId];
        nextId := nextId + 1;
      }
    }

    /** Navigation timer `k` (`t2`), the earliest one due, fires: the chosen route is assigned. */
    method FireNavigate(k: nat)
      requires Valid() && k < |pending| && pending[k].action.Navigate?
      requires forall j :: 0 <= j < |pending| ==> pending[k].due <= pending[j].due
      modifies this`pending, this`clock, this`navigations
      ensures Valid()
      ensures clock == old(pending[k].due)
      ensures navigations == old(navigations) + [Route(old(pending[k].action.mode))]
      ensures pending == old(pending[..k] + pending[k + 1..])
    {
      var t := pending[k];
      assert forall u :: u in pending[..k] + pending[k + 1..] ==> u in pending;
      pending := pending[..k] + pending[k + 1..];
      clock := t.due;
      navigations := navigations + [Route(t.action.mode)];
    }

    /** The unmount cleanup: `timeoutsRef.current.forEach(clearTimeout)`. */
    method Unmount()
      requires Valid()
      modifies this`pending
      ensures pending == []
    {
      ghost var start := pending;
      assert timeouts[..0] == [];
      DropNothing(start);
      var j := 0;
      while j < |timeouts|
        invariant 0 <= j <= |timeouts|
        invariant pending == Drop(start, timeouts[..j])
      {
        DropTwice(start, timeouts[..j], [timeouts[j]]);
        assert timeouts[..j + 1] == timeouts[..j] + [timeouts[j]];
        pending := Drop(pending, [timeouts[j]]);
        j := j + 1;
      }
      assert timeouts[..j] == timeouts;
      DropAll(start, timeouts);
    }
  }

  /**
   * Letting every timeout of a freshly chosen mode fire in turn: the four
   * steps are appended to the log in order, then the chosen route is
   * assigned and nothing is left pending.
   */
  method RunToNavigation(sel: Selector, mode: Mode, rs: seq<real>, base: nat)
    requires sel.Valid() && |rs| == |Steps| && ValidDraws(rs)
    requires sel.pending == StepTimers(base, sel.clock, rs, mode)
    modifies sel
    ensures sel.Valid() && sel.pending == []
    ensures sel.authLog == old(sel.authLog) + Steps
    ensures sel.navigations == old(sel.navigations) + [Route(mode)]
    ensures sel.state == old(sel.state) && sel.selectedMode == old(sel.selectedMode)
  {
    ghost var ts := sel.pending;
    ghost var log0 := sel.authLog;
    ghost var now := sel.clock;
    var fires := 0;
    while fires < |Steps|
      invariant sel.Valid() && fires <= |Steps|
      invariant fires < |Steps| ==> sel.pending == ts[fires..]
      invariant sel.authLog == log0 + Steps[..fires]
      invariant sel.navigations == old(sel.navigations)
      invariant sel.state == old(sel.state) && sel.selectedMode == old(sel.selectedMode)
      invariant fires == |Steps| ==> |sel.pending| == 1 && sel.pending[0].action == Navigate(mode)
    {
      StepTimerEarliest(base, now, rs, mode, fires);
      FireOneStep(sel, ts, fires, mode);
      assert Steps[..fires + 1] == Steps[..fires] + [Steps[fires]];
      fires := fires + 1;
    }
    assert Steps[..fires] == Steps;
    ghost var before := sel.pending;
    sel.FireNavigate(0);
    assert before[..0] + before[1..] == [];
  }

  /** Step `f` of the step timers `ts` fires while it is the earliest one pending. */
  method FireOneStep(sel: Selector, ghost ts: seq<Timer>, f: nat, mode: Mode)
    requires sel.Valid() && f < |Steps| == |ts| && sel.pending == ts[f..]
    requires forall j :: 0 <= j < |Steps| ==> ts[j].action == AppendStep(j, mode)
    requires forall j :: f <= j < |Steps| ==> ts[f].due <= ts[j].due
    modifies sel
    ensures sel.Valid()
    ensures sel.authLog == old(sel.authLog) + [Steps[f]]
    ensures sel.navigations == old(sel.navigations)
    ensures sel.state == old(sel.state) && sel.selectedMode == old(sel.selectedMode)
    ensures f + 1 < |Steps| ==> sel.pending == ts[f + 1..]
    ensures f + 1 == |Steps| ==> |sel.pending| == 1 && sel.pending[0].action == Navigate(mode)
  {
    ghost var before := sel.pending;
    assert forall j :: 0 <= j < |before| ==> before[j] == ts[f + j];
    assert before[0] == ts[f];
    assert before[..0] + before[1..] == ts[f + 1..];
    sel.FireStep(0);
  }

  /**
   * Choosing a mode from the selection and waiting: the log shows the four
   * steps and the browser is sent to that mode's page, once.
   */
  method ChooseAndWait(mode: Mode, rs: seq<real>) returns (log: seq<string>, navigations: seq<string>)
    requires |rs| == |Steps| && ValidDraws(rs)
    ensures log == Steps && navigations == [Route(mode)]
  {
    var sel := new Selector();
    sel.ChooseMode(mode, rs);
    assert sel.pending == StepTimers(0, sel.clock, rs, mode);
    RunToNavigation(sel, mode, rs, 0);
    log, navigations := sel.authLog, sel.navigations;
  }

  /**
   * Closing the overlay right after choosing does not cancel the timeouts:
   * the selection is shown again, yet the steps reappear in the log and the
   * browser still navigates to the chosen page.
   */
  method CloseAfterChoosing(mode: Mode, rs: seq<real>) returns (state: ModeState, log: seq<string>, navigations: seq<string>)
    requires |rs| == |Steps| && ValidDraws(rs)
    ensures state == Select && log == Steps && navigations == [Route(mode)]
  {
    var sel := new Selector();
    sel.ChooseMode(mode, rs);
    sel.Close();
    assert sel.pending == StepTimers(0, sel.clock, rs, mode);
    RunToNavigation(sel, mode, rs, 0);
    state, log, navigations := sel.state, sel.authLog, sel.navigations;
  }

  /** Unmounting right after choosing cancels everything: nothing is logged, nobody navigates. */
  method UnmountAfterChoosing(mode: Mode, rs: seq<real>) returns (pending: nat, navigations: seq<string>)
    requires |rs| == |Steps| && ValidDraws(rs)
    ensures pending == 0 && navigations == []
  {
    var sel := new Selector();
    sel.ChooseMode(mode, rs);
    sel.Unmount();
    pending, navigations := |sel.pending|, sel.navigations;
  }
}
