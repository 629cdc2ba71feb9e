/**
 * The fleet dashboard's flow: clicking the V1-RG unit starts an
 * authentication animation whose four steps are appended to a log on
 * staggered timers (800 to 1300 ms apart); one second after the last step
 * the mode selection opens, from which the operator deploys the live link,
 * starts the mock core, or aborts back to the unit list.
 */
module Dashboard {
  import opened Wrappers
  import opened AuthSchedule

  /** `"ACCESS_GRANTED"` is declared but no handler ever enters it. */
  datatype SystemState = Idle | Authenticating | AccessGranted | ModeSelect

  const Steps: seq<string> := [
    "ESTABLISHING_SECURE_LINK...",
    "VERIFYING_ENCRYPTION_KEYS...",
    "BYPASSING_FIREWALL...",
    "ACCESS_GRANTED // WELCOME_COMMANDER"
  ]

  const StepMin: real := 800.0
  const StepSpread: real := 500.0
  const ModeSelectDelay: real := 1000.0
  const ActiveUnit: string := "v1-rg"
  const LiveRoute: string := "/v1-rg/live"
  const MockRoute: string := "/v1-rg/mock"

  /** A pending timeout: append step `index`, or open the mode selection. */
  datatype Timer = AppendStep(due: real, index: nat) | OpenModeSelect(due: real)

  predicate Increasing(ts: seq<Timer>)
  {
    forall i, j :: 0 <= i < j < |ts| ==> ts[i].due < ts[j].due
  }

  class Page {
    var systemState: SystemState
    var selectedUnit: Option<string>
    var authLog: seq<string>
    /** Pending timeouts, by due time. */
    var pending: seq<Timer>
    /** The time of the last timeout that fired. */
    var clock: real
    /** Addresses assigned to `window.location.href`. */
    var navigations: seq<string>

    /**
     * The flow's invariant: the log always holds the first steps in order;
     * while authenticating exactly the remaining steps are pending, in
     * order, then the switch to the mode selection; in every other state
     * nothing is pending, and the access-granted state is never entered.
     */
    ghost predicate Valid()
      reads this
    {
      && |authLog| <= |Steps| && authLog == Steps[..|authLog|]
      && Increasing(pending)
      && (forall t :: t in pending ==> t.due >= clock)
      && systemState != AccessGranted
      && (systemState != Authenticating ==> pending == [])
      && (systemState == ModeSelect ==> authLog == Steps)
      && (systemState != Idle ==> selectedUnit == Some(ActiveUnit))
      && (systemState == Authenticating ==>
            if |authLog| < |Steps| then
              |pending| == |Steps| - |authLog|
              && forall k :: 0 <= k < |pending| ==> pending[k].AppendStep? && pending[k].index == |authLog| + k
            else
              |pending| == 1 && pending[0].OpenModeSelect?)
    }

    constructor ()
      ensures Valid()
      ensures systemState == Idle && selectedUnit == None && authLog == [] && pending == [] && navigations == []
      ensures clock == 0.0
    {
      systemState, selectedUnit, authLog := Idle, None, [];
      pending, clock, navigations := [], 0.0, [];
    }

    /**
     * `handleUnitClick`, offered on the unit list: any unit but V1-RG is
     * ignored; V1-RG is selected and `runAuthSequence` clears the log and
     * schedules the four steps, `rs` being its four random draws.
     */
    method UnitClick(unitId: string, rs: seq<real>)
      requires Valid() && systemState == Idle
      requires |rs| == |Steps| && ValidDraws(rs)
      modifies this`systemState, this`selectedUnit, this`authLog, this`pending
      ensures Valid()
      ensures unitId != ActiveUnit ==>
        systemState == old(systemState) && selectedUnit == old(selectedUnit) && authLog == old(authLog) && pending == old(pending)
      ensures unitId == ActiveUnit ==>
        && systemState == Authenticating && selectedUnit == Some(ActiveUnit) && authLog == []
        && |pending| == |Steps|
        && forall k :: 0 <= k < |Steps| ==> pending[k] == AppendStep(clock + Cumulative(rs, StepMin, StepSpread)[k], k)
    {
      if unitId != ActiveUnit {
        return;
      }
      selectedUnit := Some(unitId);
      systemState := Authenticating;
      authLog := [];
      var dues := ScheduleDues(clock, rs, StepMin, StepSpread);
      CumulativeIncreasing(rs, StepMin, StepSpread);
      pending := seq(|Steps|, k requires 0 <= k < |Steps| => AppendStep(dues[k], k));
    }

    /**
     * The earliest pending timeout fires: a step is appended to the log
     * (the last one also schedules the mode selection a second later), or
     * the mode selection opens.
     */
    method FireNext() returns (fired: bool)
      requires Valid()
      modifies this`systemState, this`authLog, this`pending, this`clock
      ensures Valid()
      ensures fired <==> old(pending) != []
      ensures !fired ==> systemState == old(systemState) && authLog == old(authLog) && pending == old(pending)
      ensures !fired ==> clock == old(clock)
      ensures fired ==> clock == old(pending)[0].due
      ensures fired && old(pending)[0].AppendStep? ==>
        && authLog == old(authLog) + [Steps[old(pending)[0].index]]
        && systemState == old(systemState)
      ensures fired && old(pending)[0].AppendStep? && old(pending)[0].index < |Steps| - 1 ==>
        pending == old(pending)[1..]
      ensures fired && old(pending)[0].AppendStep? && old(pending)[0].index == |Steps| - 1 ==>
        pending == old(pending)[1..] + [OpenModeSelect(old(pending)[0].due + ModeSelectDelay)]
      ensures fired && old(pending)[0].OpenModeSelect? ==>
        systemState == ModeSelect && authLog == old(authLog) && pending == []
    {
      fired := pending != [];
      if !fired {
        return;
      }
      var t := pending[0];
      clock := t.due;
      pending := pending[1..];
      match t
      case AppendStep(due, index) =>
        authLog := authLog + [Steps[index]];
        assert authLog == Steps[..|authLog|];
        if index == |Steps| - 1 {
          pending := pending + [OpenModeSelect(due + ModeSelectDelay)];
        }
      case OpenModeSelect(_) =>
        systemState := ModeSelect;
    }

    /** `[ Abort Sequence ]` in the mode selection: back to the unit list. */
    method Abort()
      requires Valid() && systemState == ModeSelect
      modifies this`systemState
      ensures Valid()
      ensures systemState == Idle
    {
      systemState := Idle;
    }

    /** `deployLive`. */
    method DeployLive()
      modifies this`navigations
      ensures navigations == old(navigations) + [LiveRoute]
    {
      navigations := navigations + [LiveRoute];
    }

    /** `initiateMock`. */
    method InitiateMock()
      modifies this`navigations
      ensures navigations == old(navigations) + [MockRoute]
    {
      navigations := navigations + [MockRoute];
    }
  }

  /**
   * The whole flow from the unit list: after the click and five timeouts
   * the log holds the four steps in order and the mode selection is open,
   * whatever the random delays; it opened one second after the last step,
   * which was shown at the cumulative delay of the four draws.
   */
  method AuthenticateV1RG(rs: seq<real>) returns (log: seq<string>, state: SystemState, fires: nat, openedAt: real)
    requires |rs| == |Steps| && ValidDraws(rs)
    ensures log == Steps && state == ModeSelect && fires == |Steps| + 1
    ensures openedAt == Cumulative(rs, StepMin, StepSpread)[|Steps| - 1] + ModeSelectDelay
  {
    var p := new Page();
    p.UnitClick(ActiveUnit, rs);
    ghost var c := Cumulative(rs, StepMin, StepSpread);
    fires := 0;
    while fires < |Steps|
      invariant p.Valid() && p.systemState == Authenticating && fires <= |Steps|
      invariant |p.authLog| == fires
      invariant fires < |Steps| ==> forall k :: 0 <= k < |p.pending| ==> p.pending[k] == AppendStep(c[fires + k], fires + k)
      invariant fires == |Steps| ==> p.pending == [OpenModeSelect(c[|Steps| - 1] + ModeSelectDelay)]
      decreases |Steps| - fires
    {
      FireStepOf(p, c, fires);
      fires := fires + 1;
    }
    FireOpen(p, c[|Steps| - 1] + ModeSelectDelay);
    fires := fires + 1;
    log, state, openedAt := p.authLog, p.systemState, p.clock;
  }

  /** One step timeout of the flow fires: the step is logged and the rest stay due in order. */
  method FireStepOf(p: Page, ghost c: seq<real>, fires: nat)
    requires p.Valid() && p.systemState == Authenticating && fires < |Steps| && |p.authLog| == fires
    requires |c| == |Steps|
    requires forall k :: 0 <= k < |p.pending| ==> p.pending[k] == AppendStep(c[fires + k], fires + k)
    modifies p`systemState, p`authLog, p`pending, p`clock
    ensures p.Valid() && p.systemState == Authenticating && |p.authLog| == fires + 1
    ensures fires + 1 < |Steps| ==>
      forall k :: 0 <= k < |p.pending| ==> p.pending[k] == AppendStep(c[fires + 1 + k], fires + 1 + k)
    ensures fires + 1 == |Steps| ==> p.pending == [OpenModeSelect(c[fires] + ModeSelectDelay)]
  {
    assert p.pending[0] == AppendStep(c[fires], fires);
    ghost var rest := p.pending[1..];
    var _ := p.FireNext();
    if fires + 1 < |Steps| {
      assert p.pending == rest;
    }
  }

  /** The last timeout of the flow fires and opens the mode selection. */
  method FireOpen(p: Page, ghost due: real)
    requires p.Valid() && p.pending == [OpenModeSelect(due)]
    modifies p`systemState, p`authLog, p`pending, p`clock
    ensures p.systemState == ModeSelect && p.authLog == old(p.authLog) && p.clock == due
  {
    var _ := p.FireNext();
  }
}
