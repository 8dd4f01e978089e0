/** The two engagement state machines, and the countdown timer they share. */
module Engagement {

  datatype AlertType =
    | Permanent | ImmediateDisable | UserDisable | SoftDisable | OverrideLateral | OverrideLongitudinal
    | PreEnable | Enable | NoEntry | Warning

  const SOFT_DISABLE_STEPS: int := 300

  // ---------- selfdrive ----------

  datatype SelfdriveMode = SelfDisabled | PreEnabled | SelfEnabled | SelfSoftDisabling | SelfOverriding

  /** Which kinds of events are present. */
  datatype Events = Events(
    immediateDisable: bool, userDisable: bool, softDisable: bool, overrideLateral: bool, overrideLongitudinal: bool,
    preEnable: bool, enable: bool, noEntry: bool)

  datatype Selfdriving = Selfdriving(mode: SelfdriveMode, timer: int, alerts: seq<AlertType>)

  predicate SelfActive(mode: SelfdriveMode) {
    mode == SelfEnabled || mode == SelfSoftDisabling || mode == SelfOverriding
  }

  predicate Engaged(mode: SelfdriveMode) { mode == PreEnabled || SelfActive(mode) }

  function Floor(timer: int): int { if timer > 0 then timer else 0 }

  predicate Overrides(e: Events) { e.overrideLateral || e.overrideLongitudinal }

  const OVERRIDE_ALERTS: seq<AlertType> := [OverrideLateral, OverrideLongitudinal]

  /** Entering soft disable from a mode that was in control. */
  function Arm(alerts: seq<AlertType>): Selfdriving {
    Selfdriving(SelfSoftDisabling, SOFT_DISABLE_STEPS, alerts + [SoftDisable])
  }

  /** The transition, before the warning that goes with active modes. */
  function Transition(mode: SelfdriveMode, timer: int, e: Events): Selfdriving {
    var alerts := [Permanent];
    if mode == SelfDisabled then
      if !e.enable then Selfdriving(mode, timer, alerts)
      else if e.noEntry then Selfdriving(mode, timer, alerts + [NoEntry])
      else
        Selfdriving(if e.preEnable then PreEnabled else if Overrides(e) then SelfOverriding else SelfEnabled,
                    timer, alerts + [Enable])
    else if e.immediateDisable then Selfdriving(SelfDisabled, timer, alerts + [ImmediateDisable])
    else if e.userDisable then Selfdriving(SelfDisabled, timer, alerts + [UserDisable])
    else match mode
      case SelfEnabled =>
        if e.softDisable then Arm(alerts)
        else if Overrides(e) then Selfdriving(SelfOverriding, timer, alerts + OVERRIDE_ALERTS)
        else Selfdriving(mode, timer, alerts)
      case SelfSoftDisabling =>
        if !e.softDisable then Selfdriving(SelfEnabled, timer, alerts)
        else if timer > 0 then Selfdriving(mode, timer, alerts + [SoftDisable])
        else Selfdriving(SelfDisabled, timer, alerts)
      case PreEnabled =>
        if !e.preEnable then Selfdriving(SelfEnabled, timer, alerts)
        else Selfdriving(mode, timer, alerts + [PreEnable])
      case SelfOverriding =>
        if e.softDisable then Arm(alerts)
        else if !Overrides(e) then Selfdriving(SelfEnabled, timer, alerts)
        else Selfdriving(mode, timer, alerts + OVERRIDE_ALERTS)
  }

  function SelfUpdate(s: Selfdriving, e: Events): Selfdriving {
    var t := Transition(s.mode, Floor(s.timer - 1), e);
    if SelfActive(t.mode) then t.(alerts := t.alerts + [Warning]) else t
  }

  // ---------- MADS ----------

  datatype MadsMode = MadsDisabled | Paused | MadsEnabled | MadsSoftDisabling | MadsOverriding

  /** The events MADS looks at, its own included; `parked` says that one of the events that allow pausing is present. */
  datatype MadsEvents = MadsEvents(
    userDisable: bool, immediateDisable: bool, softDisable: bool, overrideLateral: bool, enable: bool, noEntry: bool,
    silentLkasDisable: bool, parked: bool)

  predicate MadsActive(mode: MadsMode) { mode == MadsEnabled || mode == MadsSoftDisabling || mode == MadsOverriding }

  /** Both machines; MADS writes to the timer and the alerts of selfdrive. */
  datatype Joint = Joint(self: Selfdriving, mads: MadsMode)

  /** An alert that MADS only raises while selfdrive is not engaged. */
  function Say(s: Selfdriving, alert: AlertType): Selfdriving {
    if Engaged(s.mode) then s else s.(alerts := s.alerts + [alert])
  }

  function MadsArm(s: Selfdriving): Selfdriving {
    if Engaged(s.mode) then s else Selfdriving(s.mode, SOFT_DISABLE_STEPS, s.alerts + [SoftDisable])
  }

  function MadsStart(e: MadsEvents): MadsMode { if e.overrideLateral then MadsOverriding else MadsEnabled }

  function MadsTransition(j: Joint, e: MadsEvents): Joint {
    var s, mode := j.self, j.mads;
    if mode == MadsDisabled then
      if !e.enable then j
      else if e.noEntry then Joint(Say(s, NoEntry), if e.parked then Paused else mode)
      else Joint(Say(s, Enable), MadsStart(e))
    else if e.userDisable then
      Joint(s.(alerts := s.alerts + [UserDisable]), if e.silentLkasDisable then Paused else MadsDisabled)
    else if e.immediateDisable then Joint(Say(s, ImmediateDisable), MadsDisabled)
    else match mode
      case MadsEnabled =>
        if e.softDisable then Joint(MadsArm(s), MadsSoftDisabling)
        else if e.overrideLateral then Joint(Say(s, OverrideLateral), MadsOverriding)
        else j
      case MadsSoftDisabling =>
        if !e.softDisable then Joint(s, MadsEnabled)
        else if s.timer > 0 then Joint(Say(s, SoftDisable), mode)
        else Joint(s, MadsDisabled)
      case Paused =>
        if !e.enable then j
        else if e.noEntry then Joint(Say(s, NoEntry), mode)
        else Joint(Say(s, Enable), MadsStart(e))
      case MadsOverriding =>
        if e.softDisable then Joint(MadsArm(s), MadsSoftDisabling)
        else if !e.overrideLateral then Joint(s, MadsEnabled)
        else Joint(s.(alerts := s.alerts + [OverrideLateral]), mode)
  }

  function MadsUpdate(j: Joint, e: MadsEvents): Joint {
    var t := MadsTransition(j, e);
    if MadsActive(t.mads) then t.(self := Say(t.self, Warning)) else t
  }

  // ---------- joint steps ----------

  /** The events of one control step; MADS may be switched off. */
  datatype Input = Input(self: Events, mads: MadsEvents, madsRuns: bool)

  function Step(j: Joint, i: Input): Joint {
    var u := Joint(SelfUpdate(j.self, i.self), j.mads);
    if i.madsRuns then MadsUpdate(u, i.mads) else u
  }

  const START: Joint := Joint(Selfdriving(SelfDisabled, 0, [Permanent]), MadsDisabled)

  function Run(j: Joint, inputs: seq<Input>): Joint {
    if inputs == [] then j else Step(Run(j, inputs[..|inputs| - 1]), inputs[|inputs| - 1])
  }

  lemma {:induction false} RunStep(j: Joint, inputs: seq<Input>, i: Input)
    ensures Run(j, inputs + [i]) == Step(Run(j, inputs), i)
  {
    assert (inputs + [i])[..|inputs|] == inputs;
  }

  lemma {:induction false} RunAppends(j: Joint, p: seq<Input>, q: seq<Input>)
    ensures Run(j, p + q) == Run(Run(j, p), q)
  {
    if q == [] {
      assert p + q == p;
    } else {
      var init, i := q[..|q| - 1], q[|q| - 1];
      assert p + q == (p + init) + [i] && q == init + [i];
      RunAppends(j, p, init);
      RunStep(j, p + init, i);
      RunStep(Run(j, p), init, i);
    }
  }

  /** MADS leaves the mode of selfdrive alone, and its timer too while it is engaged. */
  lemma {:induction false} MadsLeavesSelfdrive(j: Joint, e: MadsEvents)
    ensures var r := MadsUpdate(j, e).self;
            r.mode == j.self.mode && (Engaged(j.self.mode) ==> r.timer == j.self.timer)
            && (r.timer == j.self.timer || r.timer == SOFT_DISABLE_STEPS)
  {}

  lemma {:induction false} SelfPartOfStep(j: Joint, i: Input)
    ensures var u, r := SelfUpdate(j.self, i.self), Step(j, i).self;
            r.mode == u.mode && (Engaged(u.mode) ==> r.timer == u.timer)
  {
    MadsLeavesSelfdrive(Joint(SelfUpdate(j.self, i.self), j.mads), i.mads);
    hide MadsUpdate, SelfUpdate;
  }

  // ---------- the countdown of selfdrive ----------

  /** Steps since selfdrive last entered soft disable, while it is in it. */
  function Since(j: Joint, inputs: seq<Input>): nat {
    if inputs == [] then 0
    else
      var init := inputs[..|inputs| - 1];
      if Run(j, init).self.mode == SelfSoftDisabling && Run(j, inputs).self.mode == SelfSoftDisabling
      then Since(j, init) + 1 else 0
  }

  /** In every run the time since entering soft disable and the timer add up to 300, whatever MADS does. */
  lemma {:induction false} TimerInvariant(inputs: seq<Input>)
    ensures Run(START, inputs).self.mode == SelfSoftDisabling ==>
              Since(START, inputs) + Run(START, inputs).self.timer == 300
              && Run(START, inputs).self.timer > 0
  {
    if inputs != [] {
      var init, i := inputs[..|inputs| - 1], inputs[|inputs| - 1];
      TimerInvariant(init);
      SelfPartOfStep(Run(START, init), i);
      hide Step;
    }
  }

  /** The soft disable condition persists, and nothing else disables. */
  predicate HoldsSoftDisable(i: Input) { i.self.softDisable && !i.self.immediateDisable && !i.self.userDisable }

  /** A held soft disable counts down for 300 steps and ends in disabled on exactly the 300th. */
  lemma {:induction false} HeldSoftDisableEnds(j: Joint, inputs: seq<Input>)
    requires j.self.mode == SelfSoftDisabling && 0 < j.self.timer
    requires forall k :: 0 <= k < |inputs| ==> HoldsSoftDisable(inputs[k])
    requires |inputs| <= j.self.timer
    ensures var r := Run(j, inputs).self;
            if |inputs| < j.self.timer then r.mode == SelfSoftDisabling && r.timer == j.self.timer - |inputs|
            else r.mode == SelfDisabled
  {
    if inputs != [] {
      var init, i := inputs[..|inputs| - 1], inputs[|inputs| - 1];
      HeldSoftDisableEnds(j, init);
      SelfPartOfStep(Run(j, init), i);
      hide Step;
    }
  }

  lemma {:induction false} SelfdriveEnters(j: Joint, i: Input)
    requires j.self.mode != SelfSoftDisabling && Step(j, i).self.mode == SelfSoftDisabling
    ensures Step(j, i).self.timer == SOFT_DISABLE_STEPS
  {
    hide Step;
    SelfPartOfStep(j, i);
  }

  /** Soft disable is always entered with the full countdown, so a held one lasts exactly 300 steps. */
  lemma {:induction false} SoftDisableLasts300(j: Joint, first: Input, inputs: seq<Input>)
    requires j.self.mode != SelfSoftDisabling && Step(j, first).self.mode == SelfSoftDisabling
    requires forall k :: 0 <= k < |inputs| ==> HoldsSoftDisable(inputs[k])
    requires |inputs| <= 300
    ensures Run(Step(j, first), inputs).self.mode ==
              if |inputs| < 300 then SelfSoftDisabling else SelfDisabled
  {
    hide Step, Run, HoldsSoftDisable;
    SelfdriveEnters(j, first);
    HeldSoftDisableEnds(Step(j, first), inputs);
  }

  // ---------- MADS does not interfere ----------

  /** Two states selfdrive cannot tell apart. */
  ghost predicate Alike(a: Selfdriving, b: Selfdriving) {
    a.mode == b.mode && (a.mode == SelfSoftDisabling ==> a.timer == b.timer)
  }

  lemma {:induction false} AlikeUpdates(a: Selfdriving, b: Selfdriving, e: Events)
    requires Alike(a, b)
    ensures Alike(SelfUpdate(a, e), SelfUpdate(b, e))
  {}

  lemma {:induction false} AlikeSteps(a: Joint, b: Joint, i: Input, k: Input)
    requires Alike(a.self, b.self) && i.self == k.self
    ensures Alike(Step(a, i).self, Step(b, k).self)
  {
    AlikeUpdates(a.self, b.self, i.self);
    SelfPartOfStep(a, i);
    SelfPartOfStep(b, k);
    hide Step, SelfUpdate;
  }

  /** Whatever MADS is told in two runs, selfdrive goes through the same modes, on the same countdowns. */
  lemma {:induction false} MadsDoesNotInterfere(a: Joint, b: Joint, p: seq<Input>, q: seq<Input>)
    requires Alike(a.self, b.self) && |p| == |q|
    requires forall k :: 0 <= k < |p| ==> p[k].self == q[k].self
    ensures Alike(Run(a, p).self, Run(b, q).self)
  {
    if p != [] {
      var n := |p| - 1;
      MadsDoesNotInterfere(a, b, p[..n], q[..n]);
      hide Step, Alike;
      AlikeSteps(Run(a, p[..n]), Run(b, q[..n]), p[n], q[n]);
    }
  }

  // ---------- the countdown of MADS ----------

  predicate HoldsMadsSoftDisable(i: Input) {
    i.madsRuns && i.mads.softDisable && !i.mads.userDisable && !i.mads.immediateDisable
  }

  /** Selfdrive starts a countdown of its own on this step. */
  predicate Arms(s: Selfdriving, e: Events) {
    (s.mode == SelfEnabled || s.mode == SelfOverriding) && e.softDisable && !e.immediateDisable && !e.userDisable
  }

  ghost predicate NoArming(j: Joint, inputs: seq<Input>) {
    forall k :: 0 <= k < |inputs| ==> !Arms(Run(j, inputs[..k]).self, inputs[k].self)
  }

  lemma {:induction false} NothingRun(j: Joint, inputs: seq<Input>)
    requires inputs == []
    ensures Run(j, inputs) == j && NoArming(j, inputs)
  {}

  lemma {:induction false} NoArmingSplits(j: Joint, init: seq<Input>, i: Input)
    ensures NoArming(j, init + [i]) <==> NoArming(j, init) && !Arms(Run(j, init).self, i.self)
  {
    var inputs := init + [i];
    assert inputs[..|init|] == init && inputs[|init|] == i;
    hide Arms, Run;
    assert forall k :: 0 <= k < |init| ==> inputs[..k] == init[..k] && inputs[k] == init[k];
  }

  /** One step of a held soft disable of MADS. */
  lemma {:induction false} HeldMadsStep(j: Joint, i: Input)
    requires j.mads == MadsSoftDisabling && HoldsMadsSoftDisable(i)
    ensures var r := Step(j, i);
            && r.self.timer == (if Arms(j.self, i.self) then SOFT_DISABLE_STEPS else Floor(j.self.timer - 1))
            && r.mads == if r.self.timer > 0 then MadsSoftDisabling else MadsDisabled
  {}

  /** How many steps a soft disable of MADS has left when it finds the timer at this value. */
  function StepsLeft(timer: int): nat { if timer > 1 then timer else 1 }

  /**
   * A soft disable held in MADS counts the shared timer down to its end if selfdrive never arms the timer meanwhile,
   * and only then: otherwise it is still disabling, with time left.
   */
  lemma {:induction false} MadsCountdown(j: Joint, inputs: seq<Input>)
    requires j.mads == MadsSoftDisabling && 0 <= j.self.timer <= SOFT_DISABLE_STEPS
    requires forall k :: 0 <= k < |inputs| ==> HoldsMadsSoftDisable(inputs[k])
    requires |inputs| <= StepsLeft(j.self.timer)
    ensures var r := Run(j, inputs);
            if NoArming(j, inputs) then
              && r.self.timer == (if inputs == [] then j.self.timer else Floor(j.self.timer - |inputs|))
              && r.mads == if inputs == [] || r.self.timer > 0 then MadsSoftDisabling else MadsDisabled
            else r.mads == MadsSoftDisabling && r.self.timer > Floor(j.self.timer - |inputs|)
  {
    hide Step, Run, NoArming, Arms, HoldsMadsSoftDisable;
    if inputs == [] {
      NothingRun(j, inputs);
    } else {
      var n := |inputs| - 1;
      var init := inputs[..n];
      assert inputs == init + [inputs[n]];
      MadsCountdown(j, init);
      if init == [] { NothingRun(j, init); }
      NoArmingSplits(j, init, inputs[n]);
      RunStep(j, init, inputs[n]);
      HeldMadsStep(Run(j, init), inputs[n]);
    }
  }

  lemma {:induction false} TimerIsBounded(inputs: seq<Input>)
    ensures 0 <= Run(START, inputs).self.timer <= SOFT_DISABLE_STEPS
  {
    if inputs != [] {
      var init, i := inputs[..|inputs| - 1], inputs[|inputs| - 1];
      TimerIsBounded(init);
      var s := Run(START, init);
      MadsLeavesSelfdrive(Joint(SelfUpdate(s.self, i.self), s.mads), i.mads);
      hide MadsUpdate;
    }
  }

  /**
   * In every run, a soft disable of MADS that is held for the steps the timer has left ends on the last of them if and
   * only if selfdrive, enabled or overriding, does not meet a soft disable without a disabling event on the way.
   */
  lemma {:induction false} MadsEndsUnlessArmed(before: seq<Input>, inputs: seq<Input>)
    requires Run(START, before).mads == MadsSoftDisabling
    requires forall k :: 0 <= k < |inputs| ==> HoldsMadsSoftDisable(inputs[k])
    requires |inputs| == StepsLeft(Run(START, before).self.timer)
    ensures Run(START, before + inputs).mads == MadsDisabled <==> NoArming(Run(START, before), inputs)
  {
    hide Run, NoArming, HoldsMadsSoftDisable;
    TimerIsBounded(before);
    RunAppends(START, before, inputs);
    MadsCountdown(Run(START, before), inputs);
  }

  /** The events do not let selfdrive engage. */
  predicate StaysDisabled(e: Events) { !e.enable || e.noEntry }

  lemma {:induction false} SelfdriveStaysDisabled(j: Joint, inputs: seq<Input>)
    requires j.self.mode == SelfDisabled
    requires forall k :: 0 <= k < |inputs| ==> StaysDisabled(inputs[k].self)
    ensures Run(j, inputs).self.mode == SelfDisabled
  {
    if inputs != [] {
      var init, i := inputs[..|inputs| - 1], inputs[|inputs| - 1];
      SelfdriveStaysDisabled(j, init);
      SelfPartOfStep(Run(j, init), i);
      hide Step;
    }
  }

  lemma {:induction false} MadsArms(j: Joint, first: Input)
    requires j.self.mode == SelfDisabled && StaysDisabled(first.self) && first.madsRuns
    requires j.mads != MadsSoftDisabling && Step(j, first).mads == MadsSoftDisabling
    ensures Step(j, first).self.timer == SOFT_DISABLE_STEPS && Step(j, first).self.mode == SelfDisabled
  {}

  /** MADS alone: while selfdrive stays disabled, a held soft disable of MADS lasts exactly 300 steps as well. */
  lemma {:induction false} MadsAloneLasts300(j: Joint, first: Input, inputs: seq<Input>)
    requires j.self.mode == SelfDisabled && StaysDisabled(first.self) && first.madsRuns
    requires j.mads != MadsSoftDisabling && Step(j, first).mads == MadsSoftDisabling
    requires forall k :: 0 <= k < |inputs| ==> HoldsMadsSoftDisable(inputs[k]) && StaysDisabled(inputs[k].self)
    requires |inputs| <= 300
    ensures Run(Step(j, first), inputs).mads ==
              if |inputs| < 300 then MadsSoftDisabling else MadsDisabled
  {
    hide Step, Run, HoldsMadsSoftDisable;
    var s := Step(j, first);
    MadsArms(j, first);
    forall k | 0 <= k < |inputs| ensures !Arms(Run(s, inputs[..k]).self, inputs[k].self) {
      SelfdriveStaysDisabled(s, inputs[..k]);
    }
    MadsCountdown(s, inputs);
  }

  // ---------- where the countdown of MADS starts again ----------

  /**
   * MADS reads the event list of selfdrive, from which it only removes events before it looks, and a list of its own
   * that never holds a soft disable or an override; the lateral override is not among the events it removes.
   */
  predicate FromOneList(i: Input) {
    (i.mads.softDisable ==> i.self.softDisable) && i.mads.overrideLateral == i.self.overrideLateral
  }

  const QUIET: Events := Events(false, false, false, false, false, false, false, false)
  const MADS_QUIET: MadsEvents := MadsEvents(false, false, false, false, false, false, false, false)
  const SOFT: Events := QUIET.(softDisable := true)
  const MADS_SOFT: MadsEvents := MADS_QUIET.(softDisable := true)

  /** Both machines are enabled, then a soft disable that does not block entry sets in and stays. */
  const ENGAGES: Input := Input(QUIET.(enable := true), MADS_QUIET.(enable := true), true)
  const SETS_IN: Input := Input(SOFT, MADS_SOFT, true)
  /** The driver cancels selfdrive, which is kept from MADS, ... */
  const CANCELS: Input := Input(SOFT.(userDisable := true), MADS_SOFT, true)
  /** ... and engages it again, which is kept from MADS as well; then selfdrive arms the timer anew. */
  const REENGAGES: Input := Input(SOFT.(enable := true), MADS_SOFT, true)
  const REARMS: Input := Input(SOFT, MADS_SOFT, true)

  const OPENING: seq<Input> := [ENGAGES, SETS_IN]

  function Rounds(n: nat): seq<Input> {
    if n == 0 then [] else Rounds(n - 1) + [CANCELS, REENGAGES, REARMS]
  }

  /** Both machines at the start of a countdown. */
  predicate FullCountdown(j: Joint) {
    j.mads == MadsSoftDisabling && j.self.mode == SelfSoftDisabling && j.self.timer == SOFT_DISABLE_STEPS
  }

  lemma {:induction false} RoundRestarts(j: Joint)
    requires FullCountdown(j)
    ensures FullCountdown(Step(Step(Step(j, CANCELS), REENGAGES), REARMS))
  {}

  lemma {:induction false} OpeningStarts()
    ensures FullCountdown(Run(START, OPENING))
  {
    assert OPENING == [] + [ENGAGES] + [SETS_IN];
    RunStep(START, [], ENGAGES);
    RunStep(START, [] + [ENGAGES], SETS_IN);
    assert Run(START, []) == START;
  }

  lemma {:induction false} RoundsHold(n: nat)
    ensures |Rounds(n)| == 3 * n
    ensures forall k :: 0 <= k < |Rounds(n)| ==> HoldsMadsSoftDisable(Rounds(n)[k]) && FromOneList(Rounds(n)[k])
  {
    assert forall i :: i in [CANCELS, REENGAGES, REARMS] ==> HoldsMadsSoftDisable(i) && FromOneList(i);
    hide HoldsMadsSoftDisable, FromOneList;
    if n > 0 { RoundsHold(n - 1); }
  }

  lemma {:induction false} RoundsRestart(j: Joint, n: nat)
    requires FullCountdown(j)
    ensures FullCountdown(Run(j, Rounds(n)))
  {
    if n == 0 {
      assert Run(j, []) == j;
    } else {
      hide Run, Step, FullCountdown;
      RoundsRestart(j, n - 1);
      var p := Rounds(n - 1);
      assert Rounds(n) == p + [CANCELS] + [REENGAGES] + [REARMS];
      RunStep(j, p, CANCELS);
      RunStep(j, p + [CANCELS], REENGAGES);
      RunStep(j, p + [CANCELS] + [REENGAGES], REARMS);
      RoundRestarts(Run(j, p));
    }
  }

  /**
   * From the start there is a run, of events the two machines can meet together, in which MADS is told to soft disable
   * for as long as one likes and has all of its 300 steps left at the end of every round.
   */
  lemma {:induction false} MadsCountdownCanRestart(n: nat)
    ensures forall k :: 0 <= k < |OPENING| ==> FromOneList(OPENING[k])
    ensures |Rounds(n)| == 3 * n
    ensures forall k :: 0 <= k < 3 * n ==> HoldsMadsSoftDisable(Rounds(n)[k]) && FromOneList(Rounds(n)[k])
    ensures FullCountdown(Run(START, OPENING)) && FullCountdown(Run(START, OPENING + Rounds(n)))
  {
    hide Run, Rounds, FullCountdown, HoldsMadsSoftDisable;
    RoundsHold(n);
    OpeningStarts();
    RunAppends(START, OPENING, Rounds(n));
    RoundsRestart(Run(START, OPENING), n);
  }

  // ---------- entering, waiting and overriding ----------

  predicate Disabling(e: Events) { e.immediateDisable || e.userDisable }

  predicate Enters(e: Events) { e.enable && !e.noEntry }

  /** Entry is made in the mode the other events call for: waiting first, then overridden, then plainly enabled. */
  lemma {:induction false} EntryChoosesMode(s: Selfdriving, e: Events)
    requires s.mode == SelfDisabled
    ensures var u := SelfUpdate(s, e);
            && (u.mode == SelfDisabled <==> !Enters(e))
            && (u.mode == PreEnabled <==> Enters(e) && e.preEnable)
            && (u.mode == SelfOverriding <==>
                Enters(e) && !e.preEnable && (e.overrideLateral || e.overrideLongitudinal))
            && (u.mode == SelfEnabled <==>
                Enters(e) && !e.preEnable && !e.overrideLateral && !e.overrideLongitudinal)
  {}

  /** An entry with the pre-enable event, which then lasts without a disabling event. */
  ghost predicate Waits(j: Joint, first: Input, inputs: seq<Input>) {
    && j.self.mode == SelfDisabled && Enters(first.self) && first.self.preEnable
    && forall k :: 0 <= k < |inputs| ==> inputs[k].self.preEnable && !Disabling(inputs[k].self)
  }

  lemma {:induction false} WaitingStep(s: Selfdriving, e: Events)
    requires s.mode == PreEnabled
    ensures var u := SelfUpdate(s, e);
            && (u.mode == PreEnabled <==> e.preEnable && !Disabling(e))
            && (u.mode == SelfEnabled <==> !e.preEnable && !Disabling(e))
            && (u.mode == SelfDisabled <==> Disabling(e))
            && (PreEnable in u.alerts <==> u.mode == PreEnabled)
  {}

  /**
   * While the pre-enable event lasts selfdrive is engaged but not active and says so; it is enabled on the first step
   * without the event, and disabled on the first with a disabling one.
   */
  lemma {:induction false} WaitsForPreEnable(j: Joint, first: Input, inputs: seq<Input>, next: Input)
    requires Waits(j, first, inputs)
    ensures var r := Run(Step(j, first), inputs).self;
            && r.mode == PreEnabled && Engaged(r.mode) && !SelfActive(r.mode)
            && (inputs != [] ==> PreEnable in SelfUpdate(Run(Step(j, first), inputs[..|inputs| - 1]).self,
                                                         inputs[|inputs| - 1].self).alerts)
    ensures var r := Step(Run(Step(j, first), inputs), next).self.mode;
            r == if Disabling(next.self) then SelfDisabled else if next.self.preEnable then PreEnabled else SelfEnabled
  {
    WaitsSoFar(j, first, inputs);
    if inputs != [] {
      var init := inputs[..|inputs| - 1];
      assert Waits(j, first, init);
      WaitsSoFar(j, first, init);
      WaitingStep(Run(Step(j, first), init).self, inputs[|inputs| - 1].self);
    }
    var s := Run(Step(j, first), inputs);
    WaitingStep(s.self, next.self);
    SelfPartOfStep(s, next);
    hide Step, SelfUpdate, Run;
  }

  lemma {:induction false} WaitsSoFar(j: Joint, first: Input, inputs: seq<Input>)
    requires Waits(j, first, inputs)
    ensures Run(Step(j, first), inputs).self.mode == PreEnabled
  {
    EntryChoosesMode(j.self, first.self);
    SelfPartOfStep(j, first);
    hide Step, SelfUpdate;
    if inputs != [] {
      var init, i := inputs[..|inputs| - 1], inputs[|inputs| - 1];
      assert Waits(j, first, init);
      WaitsSoFar(j, first, init);
      WaitingStep(Run(Step(j, first), init).self, i.self);
      SelfPartOfStep(Run(Step(j, first), init), i);
    }
  }

  /** Nothing disables selfdrive, not even slowly. */
  predicate Undisturbed(e: Events) { !Disabling(e) && !e.softDisable }

  /** Undisturbed in control, selfdrive is overriding exactly while the driver overrides it, and says so. */
  lemma {:induction false} OverridesFollowDriver(j: Joint, inputs: seq<Input>)
    requires j.self.mode == SelfEnabled || j.self.mode == SelfOverriding
    requires forall k :: 0 <= k < |inputs| ==> Undisturbed(inputs[k].self)
    requires inputs != []
    ensures var e, before := inputs[|inputs| - 1].self, Run(j, inputs[..|inputs| - 1]).self;
            && Run(j, inputs).self.mode ==
               (if e.overrideLateral || e.overrideLongitudinal then SelfOverriding else SelfEnabled)
            && (OverrideLateral in SelfUpdate(before, e).alerts <==> Run(j, inputs).self.mode == SelfOverriding)
            && (OverrideLongitudinal in SelfUpdate(before, e).alerts <==> Run(j, inputs).self.mode == SelfOverriding)
  {
    var init, i := inputs[..|inputs| - 1], inputs[|inputs| - 1];
    if init != [] { OverridesFollowDriver(j, init); }
    assert init == [] ==> Run(j, init) == j;
    hide Step, SelfUpdate;
    OverridingStep(Run(j, init).self, i.self);
    SelfPartOfStep(Run(j, init), i);
  }

  lemma {:induction false} OverridingStep(s: Selfdriving, e: Events)
    requires (s.mode == SelfEnabled || s.mode == SelfOverriding) && Undisturbed(e)
    ensures var u := SelfUpdate(s, e);
            && u.mode == (if e.overrideLateral || e.overrideLongitudinal then SelfOverriding else SelfEnabled)
            && (OverrideLateral in u.alerts <==> u.mode == SelfOverriding)
            && (OverrideLongitudinal in u.alerts <==> u.mode == SelfOverriding)
  {}

  /** A soft disable takes hold in both modes of control, and is called off the moment the condition is gone. */
  lemma {:induction false} SoftDisableTakesHold(s: Selfdriving, e: Events)
    requires !Disabling(e)
    ensures s.mode == SelfEnabled || s.mode == SelfOverriding ==>
              (SelfUpdate(s, e).mode == SelfSoftDisabling <==> e.softDisable)
    ensures s.mode == SelfSoftDisabling ==> (SelfUpdate(s, e).mode == SelfEnabled <==> !e.softDisable)
  {}

  /** Each alert, told from the modes before and after and from the events. */
  predicate Tells(s: Selfdriving, e: Events) {
    var u := SelfUpdate(s, e);
    && Permanent in u.alerts
    && (ImmediateDisable in u.alerts <==> s.mode != SelfDisabled && e.immediateDisable)
    && (UserDisable in u.alerts <==> s.mode != SelfDisabled && e.userDisable && !e.immediateDisable)
    && (SoftDisable in u.alerts <==> u.mode == SelfSoftDisabling)
    && (PreEnable in u.alerts <==> s.mode == PreEnabled && u.mode == PreEnabled)
    && (OverrideLateral in u.alerts <==> s.mode != SelfDisabled && u.mode == SelfOverriding)
    && (OverrideLongitudinal in u.alerts <==> s.mode != SelfDisabled && u.mode == SelfOverriding)
    && (Enable in u.alerts <==> s.mode == SelfDisabled && u.mode != SelfDisabled)
    && (NoEntry in u.alerts <==> s.mode == SelfDisabled && e.enable && u.mode == SelfDisabled)
    && (Warning in u.alerts <==> u.mode in {SelfEnabled, SelfSoftDisabling, SelfOverriding})
  }

  lemma {:induction false} EntryTells(s: Selfdriving, e: Events)
    requires s.mode == SelfDisabled
    ensures Tells(s, e)
  {}

  lemma {:induction false} EndTells(s: Selfdriving, e: Events)
    requires s.mode != SelfDisabled && (e.immediateDisable || e.userDisable)
    ensures Tells(s, e)
  {}

  lemma {:induction false} ControlTells(s: Selfdriving, e: Events)
    requires (s.mode == SelfEnabled || s.mode == SelfOverriding) && !e.immediateDisable && !e.userDisable
    ensures Tells(s, e)
  {}

  lemma {:induction false} HoldTells(s: Selfdriving, e: Events)
    requires (s.mode == PreEnabled || s.mode == SelfSoftDisabling) && !e.immediateDisable && !e.userDisable
    ensures Tells(s, e)
  {}

  /** The alerts of a step tell what happened on it. */
  lemma {:induction false} AlertsTell(s: Selfdriving, e: Events)
    ensures Tells(s, e)
  {
    hide Tells;
    if s.mode == SelfDisabled { EntryTells(s, e); }
    else if e.immediateDisable || e.userDisable { EndTells(s, e); }
    else if s.mode == SelfEnabled || s.mode == SelfOverriding { ControlTells(s, e); }
    else { HoldTells(s, e); }
  }

  /** While MADS is switched off its mode does not change, and selfdrive is on its own. */
  lemma {:induction false} MadsOffIsIdle(j: Joint, inputs: seq<Input>)
    requires forall k :: 0 <= k < |inputs| ==> !inputs[k].madsRuns
    ensures Run(j, inputs).mads == j.mads
    ensures inputs != [] ==>
              Run(j, inputs).self == SelfUpdate(Run(j, inputs[..|inputs| - 1]).self, inputs[|inputs| - 1].self)
  {
    hide SelfUpdate;
    if inputs != [] {
      MadsOffIsIdle(j, inputs[..|inputs| - 1]);
    }
  }

  // ---------- the modes of MADS ----------

  predicate MadsEnters(e: MadsEvents) { e.enable && !e.noEntry }

  /** MADS enters from disabled or paused, overridden or not, and pauses instead while the car is parked. */
  lemma {:induction false} MadsEntryChoosesMode(j: Joint, e: MadsEvents)
    requires j.mads == MadsDisabled || (j.mads == Paused && !e.userDisable && !e.immediateDisable)
    ensures var r := MadsUpdate(j, e).mads;
            && (r == MadsOverriding <==> MadsEnters(e) && e.overrideLateral)
            && (r == MadsEnabled <==> MadsEnters(e) && !e.overrideLateral)
            && (r == Paused <==> !MadsEnters(e) && (j.mads == Paused || (e.enable && e.parked)))
  {}

  predicate MadsUndisturbed(e: MadsEvents) { !e.userDisable && !e.immediateDisable && !e.softDisable }

  /** Undisturbed in control, MADS is overriding exactly while the driver steers. */
  lemma {:induction false} MadsOverridesFollowDriver(j: Joint, inputs: seq<Input>)
    requires j.mads == MadsEnabled || j.mads == MadsOverriding
    requires forall k :: 0 <= k < |inputs| ==> inputs[k].madsRuns && MadsUndisturbed(inputs[k].mads)
    requires inputs != []
    ensures Run(j, inputs).mads == if inputs[|inputs| - 1].mads.overrideLateral then MadsOverriding else MadsEnabled
  {
    var init, i := inputs[..|inputs| - 1], inputs[|inputs| - 1];
    if init != [] { MadsOverridesFollowDriver(j, init); }
    assert init == [] ==> Run(j, init) == j;
    hide SelfUpdate, Say, Run;
  }

  lemma {:induction false} MadsSoftDisableTakesHold(j: Joint, e: MadsEvents)
    requires !e.userDisable && !e.immediateDisable
    ensures j.mads == MadsEnabled || j.mads == MadsOverriding ==>
              (MadsUpdate(j, e).mads == MadsSoftDisabling <==> e.softDisable)
    ensures j.mads == MadsSoftDisabling ==> (MadsUpdate(j, e).mads == MadsEnabled <==> !e.softDisable)
  {}

  /**
   * While selfdrive is disabled, MADS adds to its alerts what happens to MADS itself: its entry or why there is none,
   * what disables it, its overriding, and a warning while it is active.
   */
  lemma {:induction false} MadsAlertsTell(j: Joint, e: MadsEvents, a: AlertType)
    requires j.self.mode == SelfDisabled
    ensures var r := MadsUpdate(j, e);
            j.self.alerts <= r.self.alerts
            && (a in r.self.alerts[|j.self.alerts|..] <==> MadsTells(j.mads, r.mads, e, a))
  {
    hide MadsTransition, MadsUpdate, MadsTells;
    MadsTransitionTells(j, e);
    MadsUpdateIs(j, e);
    var t, before := MadsTransition(j, e), j.self.alerts;
    var cause := t.self.alerts[|before|..];
    var warning := if MadsActive(t.mads) then [Warning] else [];
    assert t.self.alerts == before + cause;
    assert (before + cause + warning)[|before|..] == cause + warning;
    assert a in cause + warning <==> a in cause || a in warning;
    MadsWarns(j.mads, t.mads, e);
  }

  lemma {:induction false} MadsUpdateIs(j: Joint, e: MadsEvents)
    requires MadsTransition(j, e).self.mode == SelfDisabled
    ensures var r, t := MadsUpdate(j, e), MadsTransition(j, e);
            r.mads == t.mads && r.self.alerts == t.self.alerts + if MadsActive(t.mads) then [Warning] else []
  {
    hide MadsTransition;
  }

  lemma {:induction false} MadsWarns(before: MadsMode, after: MadsMode, e: MadsEvents)
    ensures MadsTells(before, after, e, Warning) <==> MadsActive(after)
  {}

  lemma {:induction false} MadsTransitionTells(j: Joint, e: MadsEvents)
    requires j.self.mode == SelfDisabled
    ensures var t := MadsTransition(j, e);
            && t.self.mode == SelfDisabled && j.self.alerts <= t.self.alerts
            && var cause := t.self.alerts[|j.self.alerts|..];
               && |cause| <= 1
               && (cause == [] ==> forall a :: a != Warning ==> !MadsTells(j.mads, t.mads, e, a))
               && (cause != [] ==> cause[0] != Warning)
               && (cause != [] ==>
                     forall a :: a != Warning ==> (MadsTells(j.mads, t.mads, e, a) <==> a == cause[0]))
  {
    if j.mads == MadsDisabled {} else if j.mads == Paused {} else {}
  }

  predicate MadsTells(before: MadsMode, after: MadsMode, e: MadsEvents, a: AlertType) {
    var on := before != MadsDisabled;
    match a
    case UserDisable => on && e.userDisable
    case ImmediateDisable => on && e.immediateDisable && !e.userDisable
    case SoftDisable => after == MadsSoftDisabling
    case OverrideLateral => after == MadsOverriding && (before == MadsEnabled || before == MadsOverriding)
    case Enable => !MadsActive(before) && MadsActive(after)
    case NoEntry => e.enable && e.noEntry && (!on || (before == Paused && !e.userDisable && !e.immediateDisable))
    case Warning => after in {MadsEnabled, MadsSoftDisabling, MadsOverriding}
    case _ => false
  }

  // ---------- alerts ----------

  /** While selfdrive is engaged, MADS adds no alert but a user disable or a lateral override. */
  lemma {:induction false} MadsIsQuietWhileEngaged(j: Joint, e: MadsEvents)
    requires Engaged(j.self.mode)
    ensures var r := MadsUpdate(j, e).self.alerts;
            r == j.self.alerts || r == j.self.alerts + [UserDisable] || r == j.self.alerts + [OverrideLateral]
  {}

  lemma {:induction false} SelfdriveWarns(s: Selfdriving, e: Events)
    ensures var u := SelfUpdate(s, e);
            u.alerts != [] && u.alerts[0] == Permanent && (Warning in u.alerts <==> SelfActive(u.mode))
  {}

  /** Warnings are shown exactly when selfdrive is active, or MADS is and selfdrive is not engaged. */
  lemma {:induction false} WarningsShowActivity(j: Joint, i: Input)
    requires i.madsRuns
    ensures var r := Step(j, i);
            && r.self.alerts != [] && r.self.alerts[0] == Permanent
            && (Warning in r.self.alerts <==>
                SelfActive(r.self.mode) || (MadsActive(r.mads) && r.self.mode == SelfDisabled))
  {
    SelfdriveWarns(j.self, i.self);
    hide SelfUpdate, Run;
  }

  lemma {:induction false} DisablingIsImmediate(j: Joint, i: Input)
    ensures i.self.immediateDisable || i.self.userDisable ==>
              Step(j, i).self.mode == SelfDisabled || j.self.mode == SelfDisabled
    ensures i.madsRuns && j.mads != MadsDisabled && (i.mads.immediateDisable || i.mads.userDisable) ==>
              Step(j, i).mads == if i.mads.userDisable && i.mads.silentLkasDisable then Paused else MadsDisabled
  {}

  predicate MadsOff(mode: MadsMode) { mode == MadsDisabled || mode == Paused }

  lemma {:induction false} MadsStaysOff(j: Joint, inputs: seq<Input>)
    requires MadsOff(j.mads)
    requires forall k :: 0 <= k < |inputs| ==> !inputs[k].mads.enable || inputs[k].mads.noEntry
    ensures MadsOff(Run(j, inputs).mads)
  {
    if inputs != [] {
      var init := inputs[..|inputs| - 1];
      MadsStaysOff(j, init);
      hide SelfUpdate, Run;
    }
  }

  /** In every run, what a disabling event switches off stays off until an enabling event comes without an obstacle. */
  lemma {:induction false} DisablingLasts(j: Joint, first: Input, inputs: seq<Input>)
    ensures j.self.mode != SelfDisabled && (first.self.immediateDisable || first.self.userDisable)
            && (forall k :: 0 <= k < |inputs| ==> StaysDisabled(inputs[k].self)) ==>
              Run(Step(j, first), inputs).self.mode == SelfDisabled
    ensures first.madsRuns && j.mads != MadsDisabled && (first.mads.immediateDisable || first.mads.userDisable)
            && (forall k :: 0 <= k < |inputs| ==> !inputs[k].mads.enable || inputs[k].mads.noEntry) ==>
              MadsOff(Run(Step(j, first), inputs).mads)
  {
    hide Run, Step;
    DisablingIsImmediate(j, first);
    var s := Step(j, first);
    if s.self.mode == SelfDisabled && forall k :: 0 <= k < |inputs| ==> StaysDisabled(inputs[k].self) {
      SelfdriveStaysDisabled(s, inputs);
    }
    if MadsOff(s.mads) && forall k :: 0 <= k < |inputs| ==> !inputs[k].mads.enable || inputs[k].mads.noEntry {
      MadsStaysOff(s, inputs);
    }
  }

  // ---------- the machines ----------

  /** The state machine of selfdrive. */
  class StateMachine {
    var state: SelfdriveMode
    var softDisableTimer: int
    var currentAlertTypes: seq<AlertType>

    ghost function Now(): Selfdriving
      reads this
    {
      Selfdriving(state, softDisableTimer, currentAlertTypes)
    }

    constructor ()
      ensures Now() == START.self
    {
      currentAlertTypes := [Permanent];
      state := SelfDisabled;
      softDisableTimer := 0;
    }

    method Update(e: Events) returns (enabled: bool, active: bool)
      modifies this
      ensures Now() == SelfUpdate(old(Now()), e)
      ensures enabled == Engaged(state) && active == SelfActive(state)
    {
      softDisableTimer := if softDisableTimer - 1 > 0 then softDisableTimer - 1 else 0;
      currentAlertTypes := [Permanent];

      if state != SelfDisabled {
        if e.immediateDisable {
          state := SelfDisabled;
          currentAlertTypes := currentAlertTypes + [ImmediateDisable];
        } else if e.userDisable {
          state := SelfDisabled;
          currentAlertTypes := currentAlertTypes + [UserDisable];
        } else if state == SelfEnabled {
          if e.softDisable {
            state := SelfSoftDisabling;
            softDisableTimer := SOFT_DISABLE_STEPS;
            currentAlertTypes := currentAlertTypes + [SoftDisable];
          } else if e.overrideLateral || e.overrideLongitudinal {
            state := SelfOverriding;
            currentAlertTypes := currentAlertTypes + [OverrideLateral, OverrideLongitudinal];
          }
        } else if state == SelfSoftDisabling {
          if !e.softDisable {
            state := SelfEnabled;
          } else if softDisableTimer > 0 {
            currentAlertTypes := currentAlertTypes + [SoftDisable];
          } else if softDisableTimer <= 0 {
            state := SelfDisabled;
          }
        } else if state == PreEnabled {
          if !e.preEnable {
            state := SelfEnabled;
          } else {
            currentAlertTypes := currentAlertTypes + [PreEnable];
          }
        } else if state == SelfOverriding {
          if e.softDisable {
            state := SelfSoftDisabling;
            softDisableTimer := SOFT_DISABLE_STEPS;
            currentAlertTypes := currentAlertTypes + [SoftDisable];
          } else if !(e.overrideLateral || e.overrideLongitudinal) {
            state := SelfEnabled;
          } else {
            currentAlertTypes := currentAlertTypes + [OverrideLateral, OverrideLongitudinal];
          }
        }
      } else if state == SelfDisabled {
        if e.enable {
          if e.noEntry {
            currentAlertTypes := currentAlertTypes + [NoEntry];
          } else {
            if e.preEnable {
              state := PreEnabled;
            } else if e.overrideLateral || e.overrideLongitudinal {
              state := SelfOverriding;
            } else {
              state := SelfEnabled;
            }
            currentAlertTypes := currentAlertTypes + [Enable];
          }
        }
      }

      enabled, active := Engaged(state), SelfActive(state);
      if active {
        currentAlertTypes := currentAlertTypes + [Warning];
      }
    }
  }

  /** The daemon as far as MADS sees it: its state machine, and whether it is engaged. */
  class Selfdrive {
    const machine: StateMachine
    var enabled: bool

    ghost predicate Valid()
      reads this, machine
    {
      enabled == Engaged(machine.state)
    }

    constructor ()
      ensures Valid() && fresh(machine) && machine.Now() == START.self
    {
      machine := new StateMachine();
      enabled := false;
    }
  }

  /** The state machine of MADS, which writes to that of selfdrive. */
  class MadsStateMachine {
    const selfdrive: Selfdrive
    var state: MadsMode

    ghost function Now(): Joint
      reads this, selfdrive, selfdrive.machine
    {
      Joint(selfdrive.machine.Now(), state)
    }

    constructor (selfdrive: Selfdrive)
      ensures this.selfdrive == selfdrive && state == MadsDisabled
    {
      this.selfdrive := selfdrive;
      state := MadsDisabled;
    }

    method AddCurrentAlertTypes(alert: AlertType)
      requires selfdrive.Valid()
      modifies selfdrive.machine`currentAlertTypes
      ensures selfdrive.machine.Now() == Say(old(selfdrive.machine.Now()), alert)
    {
      if !selfdrive.enabled {
        selfdrive.machine.currentAlertTypes := selfdrive.machine.currentAlertTypes + [alert];
      }
    }

    /** Starts the countdown that selfdrive's timer keeps, if selfdrive does not need it. */
    method ArmTimer()
      requires selfdrive.Valid()
      modifies selfdrive.machine`currentAlertTypes, selfdrive.machine`softDisableTimer
      ensures selfdrive.machine.Now() == MadsArm(old(selfdrive.machine.Now()))
    {
      if !selfdrive.enabled {
        selfdrive.machine.softDisableTimer := SOFT_DISABLE_STEPS;
        selfdrive.machine.currentAlertTypes := selfdrive.machine.currentAlertTypes + [SoftDisable];
      }
    }

    method Transit(e: MadsEvents)
      requires selfdrive.Valid()
      modifies `state, selfdrive.machine`currentAlertTypes, selfdrive.machine`softDisableTimer
      ensures Now() == MadsTransition(old(Now()), e)
    {
      hide Say, MadsArm, Step, Run, SelfUpdate;
      if state != MadsDisabled {
        if e.userDisable {
          if e.silentLkasDisable {
            state := Paused;
          } else {
            state := MadsDisabled;
          }
          selfdrive.machine.currentAlertTypes := selfdrive.machine.currentAlertTypes + [UserDisable];
        } else if e.immediateDisable {
          state := MadsDisabled;
          AddCurrentAlertTypes(ImmediateDisable);
        } else if state == MadsEnabled {
          if e.softDisable {
            state := MadsSoftDisabling;
            ArmTimer();
          } else if e.overrideLateral {
            state := MadsOverriding;
            AddCurrentAlertTypes(OverrideLateral);
          }
        } else if state == MadsSoftDisabling {
          if !e.softDisable {
            state := MadsEnabled;
          } else if selfdrive.machine.softDisableTimer > 0 {
            AddCurrentAlertTypes(SoftDisable);
          } else if selfdrive.machine.softDisableTimer <= 0 {
            state := MadsDisabled;
          }
        } else if state == Paused {
          if e.enable {
            if e.noEntry {
              AddCurrentAlertTypes(NoEntry);
            } else {
              if e.overrideLateral {
                state := MadsOverriding;
              } else {
                state := MadsEnabled;
              }
              AddCurrentAlertTypes(Enable);
            }
          }
        } else if state == MadsOverriding {
          if e.softDisable {
            state := MadsSoftDisabling;
            ArmTimer();
          } else if !e.overrideLateral {
            state := MadsEnabled;
          } else {
            selfdrive.machine.currentAlertTypes := selfdrive.machine.currentAlertTypes + [OverrideLateral];
          }
        }
      } else if state == MadsDisabled {
        if e.enable {
          if e.noEntry {
            if e.parked {
              state := Paused;
            }
            AddCurrentAlertTypes(NoEntry);
          } else {
            if e.overrideLateral {
              state := MadsOverriding;
            } else {
              state := MadsEnabled;
            }
            AddCurrentAlertTypes(Enable);
          }
        }
      }
    }

    method Update(e: MadsEvents) returns (enabled: bool, active: bool)
      requires selfdrive.Valid()
      modifies `state, selfdrive.machine`currentAlertTypes, selfdrive.machine`softDisableTimer
      ensures Now() == MadsUpdate(old(Now()), e) && selfdrive.Valid()
      ensures enabled == (state != MadsDisabled) && active == MadsActive(state)
    {
      hide MadsTransition, Say, Step, Run, SelfUpdate;
      Transit(e);
      enabled, active := state == Paused || MadsActive(state), MadsActive(state);
      if active {
        AddCurrentAlertTypes(Warning);
      }
    }

    /** One control step of the daemon: selfdrive first, then MADS unless it is switched off. */
    method ControlStep(i: Input)
      requires selfdrive.Valid()
      modifies this, selfdrive, selfdrive.machine
      ensures Now() == Step(old(Now()), i) && selfdrive.Valid()
    {
      hide MadsUpdate, SelfUpdate;
      var enabled, active := selfdrive.machine.Update(i.self);
      selfdrive.enabled := enabled;
      if i.madsRuns {
        enabled, active := Update(i.mads);
      }
    }
  }
}
