/** Driver monitoring: awareness under two policies, escalating alerts, and lockout episodes. */
module DriverMonitoring {

  datatype Policy = Vision | Wheeltouch

  datatype AlertLevel = None | One | Two | Three

  const VISION_STEP: real := 1.0 / 260.0
  const VISION_ALERT_1: real := 8.0 / 13.0
  const VISION_ALERT_2: real := 5.0 / 13.0
  const WHEELTOUCH_STEP: real := 1.0 / 500.0
  const WHEELTOUCH_ALERT_1: real := 4.0 / 5.0
  const WHEELTOUCH_ALERT_2: real := 2.0 / 5.0
  const FILTER_ALPHA: real := 1.0 / 6.0
  const RECOVERY_FACTOR_MAX: real := 5.0
  const RECOVERY_FACTOR_MIN: real := 1.25
  const HI_STD_FALLBACK_TIME: nat := 200
  const NO_RESPONSE_TIMEOUT: nat := 100
  const MAX_ALERT_3: nat := 2
  const MAX_NO_RESPONSE: nat := 1
  const LOCKOUT_TIMES: seq<nat> := [1200, 6000, 18000, 36000]

  /** What one step is given: the driver as seen by the camera, and the state of the car. */
  datatype Input = Input(
    seen: bool, face: bool, lowStd: bool, inattentive: bool,
    interacting: bool, engaged: bool, lowspeed: bool, wrongGear: bool)

  /** The driver as last seen, and how certain the model was about it. */
  datatype Camera = Camera(face: bool, lowStd: bool, distracted: bool, filter: real, hiStds: nat, uncertain: bool)

  /** Awareness under the active policy, what was saved for the other one, and the active policy's settings. */
  datatype Attention = Attention(
    awareness: real, lastVision: real, lastWheeltouch: real,
    policy: Policy, step: real, threshold1: real, threshold2: real)

  /** Alert counters and the lockout they lead to. */
  datatype Ledger = Ledger(
    alert3Cnt: nat, sinceAlert3: nat, noResponseCnt: nat,
    lockout: bool, count: nat, duration: nat, elapsed: nat)

  datatype State = State(camera: Camera, attention: Attention, ledger: Ledger, alert: AlertLevel, alwaysOn: bool)

  function Min(a: real, b: real): real { if a <= b then a else b }

  function Max(a: real, b: real): real { if a >= b then a else b }

  function LockoutTime(count: nat): nat {
    LOCKOUT_TIMES[if count == 0 then 0 else if count <= |LOCKOUT_TIMES| then count - 1 else |LOCKOUT_TIMES| - 1]
  }

  // ---------- one step, as a function of the state ----------

  function ResetAwareness(a: Attention): Attention {
    a.(awareness := 1.0, lastVision := 1.0, lastWheeltouch := 1.0)
  }

  function SetPolicy(a: Attention, target: Policy): Attention {
    if a.policy == Vision && a.awareness <= a.threshold2 then
      a.(step := if target == Vision then VISION_STEP else 0.0)
    else if a.awareness <= 0.0 then a
    else if target == Vision then
      if a.policy != Vision then
        Attention(a.lastVision, a.lastVision, a.awareness, Vision, VISION_STEP, VISION_ALERT_1, VISION_ALERT_2)
      else
        Attention(a.awareness, a.lastVision, a.lastWheeltouch, Vision, VISION_STEP, VISION_ALERT_1, VISION_ALERT_2)
    else
      if a.policy == Vision then
        Attention(a.lastWheeltouch, a.awareness, a.lastWheeltouch, Wheeltouch, WHEELTOUCH_STEP, WHEELTOUCH_ALERT_1,
            WHEELTOUCH_ALERT_2)
      else
        Attention(a.awareness, a.lastVision, a.lastWheeltouch, Wheeltouch, WHEELTOUCH_STEP, WHEELTOUCH_ALERT_1,
            WHEELTOUCH_ALERT_2)
  }

  /** Distraction is only trusted of a face that is seen with certainty. */
  predicate Distracted(i: Input) { i.inattentive && i.face && i.lowStd }

  function Filtered(x: real, distracted: bool): real {
    (1.0 - FILTER_ALPHA) * x + FILTER_ALPHA * (if distracted then 1.0 else 0.0)
  }

  /** What the camera saw; uncertainty is judged by the frames before this one. */
  function Observe(c: Camera, i: Input): Camera {
    Camera(i.face, i.lowStd, Distracted(i), Filtered(c.filter, Distracted(i)), c.hiStds,
        c.hiStds >= HI_STD_FALLBACK_TIME)
  }

  function CountStds(c: Camera): Camera {
    if c.face && !c.lowStd && !c.distracted then c.(hiStds := c.hiStds + 1)
    else if c.face && c.lowStd then c.(hiStds := 0)
    else c
  }

  function Target(c: Camera): Policy { if c.face && !c.uncertain then Vision else Wheeltouch }

  function UpdateStates(s: State, i: Input): State {
    if !i.seen then s
    else
      var c := Observe(s.camera, i);
      s.(camera := CountStds(c), attention := SetPolicy(s.attention, Target(c)))
  }

  predicate LockoutDue(l: Ledger) { l.alert3Cnt >= MAX_ALERT_3 || l.noResponseCnt >= MAX_NO_RESPONSE }

  function EnterLockout(l: Ledger): Ledger {
    if LockoutDue(l) && !l.lockout then l.(lockout := true, count := l.count + 1,
        duration := LockoutTime(l.count + 1)) else l
  }

  function TickLockout(l: Ledger): Ledger {
    if !l.lockout then l
    else if l.elapsed + 1 > l.duration then Ledger(0, 0, 0, false, l.count, l.duration, 0)
    else l.(elapsed := l.elapsed + 1)
  }

  predicate Resets(a: Attention, alwaysOn: bool, i: Input) {
    || (i.interacting && a.awareness > 0.0 && a.policy == Wheeltouch)
    || (!alwaysOn && !i.engaged)
    || (alwaysOn && !i.engaged && a.awareness <= 0.0)
  }

  predicate LowspeedExempt(a: Attention, i: Input) { i.lowspeed && a.awareness - a.step <= a.threshold1 }

  predicate AlwaysOnExempt(a: Attention, alwaysOn: bool, i: Input) {
    alwaysOn && !i.engaged && a.awareness - a.step <= 0.0
  }

  predicate Attentive(c: Camera) { c.filter < 0.37 && c.face && c.lowStd }

  predicate Recovers(a: Attention, c: Camera, i: Input) {
    a.awareness > 0.0 && (Attentive(c) || LowspeedExempt(a, i))
  }

  function Recovered(a: Attention): Attention {
    var gain := ((RECOVERY_FACTOR_MAX - RECOVERY_FACTOR_MIN) * (1.0 - a.awareness) + RECOVERY_FACTOR_MIN) * a.step;
    var awareness := Min(a.awareness + gain, 1.0);
    a.(awareness := awareness,
       lastWheeltouch := if awareness == 1.0 then Min(a.lastWheeltouch + a.step, 1.0) else a.lastWheeltouch)
  }

  predicate Counts(c: Camera) { (c.filter > 0.63 && c.distracted && c.face) || c.uncertain || !c.face }

  function Decayed(a: Attention): Attention { a.(awareness := Max(a.awareness - a.step, -0.1)) }

  /** The attention after a step, and whether alerts are to be judged by it. */
  datatype Verdict = Verdict(attention: Attention, judged: bool)

  function Attend(a: Attention, c: Camera, alwaysOn: bool, i: Input): Verdict {
    if Resets(a, alwaysOn, i) then Verdict(ResetAwareness(a), false)
    else if Recovers(a, c, i) && i.interacting then Verdict(ResetAwareness(a), false)
    else if Recovers(a, c, i) && Recovered(a).awareness > a.threshold2 then Verdict(Recovered(a), false)
    else
      var r := if Recovers(a, c, i) then Recovered(a) else a;
      var exempt := LowspeedExempt(a, i) || AlwaysOnExempt(a, alwaysOn, i);
      Verdict(if Counts(c) && !exempt then Decayed(r) else r, true)
  }

  function Level(a: Attention): AlertLevel {
    if a.awareness <= 0.0 then Three
    else if a.awareness <= a.threshold2 then Two
    else if a.awareness <= a.threshold1 then One
    else None
  }

  /** Counts alerts of level three and how long they go unanswered. */
  function Record(l: Ledger, before: real, now: real): Ledger {
    if now > 0.0 then l
    else
      var since := if before > 0.0 then 0 else l.sinceAlert3 + 1;
      l.(alert3Cnt := if before > 0.0 then l.alert3Cnt + 1 else l.alert3Cnt, sinceAlert3 := since,
         noResponseCnt := if since == NO_RESPONSE_TIMEOUT then l.noResponseCnt + 1 else l.noResponseCnt)
  }

  function UpdateEvents(s: State, i: Input): State {
    var l := TickLockout(EnterLockout(s.ledger));
    var v := Attend(s.attention, s.camera, s.alwaysOn && !i.wrongGear, i);
    s.(attention := v.attention,
       ledger := if v.judged then Record(l, s.attention.awareness, v.attention.awareness) else l,
       alert := if v.judged then Level(v.attention) else None)
  }

  function Step(s: State, i: Input): State { UpdateEvents(UpdateStates(s, i), i) }

  function Run(s: State, inputs: seq<Input>): State {
    if inputs == [] then s else Step(Run(s, inputs[..|inputs| - 1]), inputs[|inputs| - 1])
  }

  /** The state monitoring starts from; lockouts may have been saved by an earlier run. */
  function Initial(alwaysOn: bool, savedLockout: bool, savedCount: nat): State {
    State(Camera(false, true, false, 0.0, 0, false),
          SetPolicy(Attention(1.0, 1.0, 1.0, Vision, 0.0, 0.0, 0.0), Vision),
          Ledger(0, 0, 0, savedLockout, savedCount, LockoutTime(savedCount), 0),
          None, alwaysOn)
  }

  // ---------- what every run keeps ----------

  /** Bounds of awareness, and the settings that go with each policy. */
  ghost predicate GoodAttention(a: Attention) {
    && -0.1 <= a.awareness <= 1.0
    && VISION_ALERT_2 < a.lastVision <= 1.0
    && 0.0 < a.lastWheeltouch <= 1.0
    && (a.policy == Vision ==>
          a.threshold1 == VISION_ALERT_1 && a.threshold2 == VISION_ALERT_2 && (a.step == VISION_STEP || a.step == 0.0))
    && (a.policy == Wheeltouch ==>
          a.threshold1 == WHEELTOUCH_ALERT_1 && a.threshold2 == WHEELTOUCH_ALERT_2 && a.step == WHEELTOUCH_STEP)
  }

  /** Lockouts last as long as their number says, and only run while active. */
  ghost predicate GoodLedger(l: Ledger) {
    && (!l.lockout ==> l.elapsed == 0)
    && l.elapsed <= l.duration == LockoutTime(l.count)
  }

  ghost predicate Good(s: State) {
    GoodAttention(s.attention) && GoodLedger(s.ledger) && 0.0 <= s.camera.filter <= 1.0
  }

  lemma {:induction false} InitialIsGood(alwaysOn: bool, savedLockout: bool, savedCount: nat)
    ensures var s := Initial(alwaysOn, savedLockout, savedCount);
            && Good(s) && s.attention.policy == Vision && s.attention.awareness == 1.0
            && s.camera.filter == 0.0 && s.camera.hiStds == 0
  {}

  lemma {:induction false} PolicyKeepsGood(a: Attention, target: Policy)
    requires GoodAttention(a)
    ensures GoodAttention(SetPolicy(a, target))
  {}

  lemma {:induction false} AttendKeepsGood(a: Attention, c: Camera, alwaysOn: bool, i: Input)
    requires GoodAttention(a)
    ensures GoodAttention(Attend(a, c, alwaysOn, i).attention)
  {
    if a.step == 0.0 {} else if a.step == VISION_STEP {} else {}
  }

  lemma {:induction false} LedgerKeepsGood(l: Ledger, before: real, now: real)
    requires GoodLedger(l)
    ensures GoodLedger(TickLockout(EnterLockout(l)))
    ensures GoodLedger(Record(l, before, now))
  {}

  lemma {:induction false} StepKeepsGood(s: State, i: Input)
    requires Good(s)
    ensures Good(Step(s, i))
  {
    var c := Observe(s.camera, i);
    var u := UpdateStates(s, i);
    PolicyKeepsGood(s.attention, Target(c));
    AttendKeepsGood(u.attention, u.camera, u.alwaysOn && !i.wrongGear, i);
    LedgerKeepsGood(s.ledger, 0.0, 0.0);
    var v := Attend(u.attention, u.camera, u.alwaysOn && !i.wrongGear, i);
    LedgerKeepsGood(TickLockout(EnterLockout(u.ledger)), u.attention.awareness, v.attention.awareness);
    hide GoodAttention, GoodLedger, SetPolicy, Attend, TickLockout, EnterLockout, Record, Level;
  }

  lemma {:induction false} RunKeepsGood(s: State, inputs: seq<Input>)
    requires Good(s)
    ensures Good(Run(s, inputs))
  {
    if inputs != [] {
      RunKeepsGood(s, inputs[..|inputs| - 1]);
      StepKeepsGood(Run(s, inputs[..|inputs| - 1]), inputs[|inputs| - 1]);
      hide Good, Step;
    }
  }

  // ---------- alerts ----------

  lemma {:induction false} RunStep(s: State, inputs: seq<Input>, i: Input)
    ensures Run(s, inputs + [i]) == Step(Run(s, inputs), i)
  {
    assert (inputs + [i])[..|inputs|] == inputs;
  }

  lemma {:induction false} RedNeedsEngagement(a: Attention, c: Camera, alwaysOn: bool, i: Input)
    requires GoodAttention(a)
    ensures var v := Attend(a, c, alwaysOn, i); v.judged && v.attention.awareness <= 0.0 ==> i.engaged
  {
    if a.step == 0.0 {} else if a.step == VISION_STEP {} else {}
  }

  /** In every run, an alert of level three is raised only on a step where the system is engaged. */
  lemma {:induction false} AlertThreeOnlyWhenEngaged(s: State, inputs: seq<Input>)
    requires Good(s) && inputs != []
    ensures Run(s, inputs).alert == Three ==> inputs[|inputs| - 1].engaged
  {
    var before, i := Run(s, inputs[..|inputs| - 1]), inputs[|inputs| - 1];
    RunKeepsGood(s, inputs[..|inputs| - 1]);
    var u := UpdateStates(before, i);
    PolicyKeepsGood(before.attention, Target(Observe(before.camera, i)));
    RedNeedsEngagement(u.attention, u.camera, u.alwaysOn && !i.wrongGear, i);
    hide GoodAttention, Attend, SetPolicy;
  }

  /** At or below the orange threshold of vision the policy does not change; a switch back to vision lands above it. */
  lemma {:induction false} PolicySwitches(s: State, i: Input)
    requires Good(s)
    ensures s.attention.policy == Vision && s.attention.awareness <= VISION_ALERT_2 ==>
              Step(s, i).attention.policy == Vision
    ensures s.attention.policy == Wheeltouch && UpdateStates(s, i).attention.policy == Vision ==>
              UpdateStates(s, i).attention.awareness > VISION_ALERT_2
  {
    var u := UpdateStates(s, i);
    AttendKeepsPolicy(u.attention, u.camera, u.alwaysOn && !i.wrongGear, i);
    hide Attend;
  }

  lemma {:induction false} AttendKeepsPolicy(a: Attention, c: Camera, alwaysOn: bool, i: Input)
    ensures Attend(a, c, alwaysOn, i).attention.policy == a.policy
  {}

  /** Red is terminal: as long as the system stays engaged, nothing the driver does raises awareness again. */
  lemma {:induction false} RedIsTerminal(s: State, inputs: seq<Input>)
    requires Good(s) && s.attention.awareness <= 0.0
    requires forall k :: 0 <= k < |inputs| ==> inputs[k].engaged
    ensures Run(s, inputs).attention.awareness <= 0.0
    ensures inputs != [] ==> Run(s, inputs).alert == Three
  {
    if inputs != [] {
      var init, i := inputs[..|inputs| - 1], inputs[|inputs| - 1];
      RedIsTerminal(s, init);
      RunKeepsGood(s, init);
      RedStays(Run(s, init), i);
    }
  }

  lemma {:induction false} RedStays(s: State, i: Input)
    requires Good(s) && s.attention.awareness <= 0.0 && i.engaged
    ensures Step(s, i).attention.awareness <= 0.0 && Step(s, i).alert == Three
    ensures Step(s, i).ledger == Record(TickLockout(EnterLockout(s.ledger)), 0.0, 0.0)
  {
    var u := UpdateStates(s, i);
    assert u.attention.awareness <= 0.0 && u.attention.step >= 0.0;
    hide TickLockout, EnterLockout, SetPolicy;
  }

  /**
   * Under vision, at orange or worse, an engaged step without attention gives awareness back only at low speed and
   * before red, and only if the driver does something or the policy input asks for vision.
   */
  lemma {:induction false} NothingGainedAfterOrange(s: State, i: Input)
    requires Good(s) && s.attention.policy == Vision && s.attention.awareness <= VISION_ALERT_2
    requires i.engaged && !Attentive(UpdateStates(s, i).camera)
    ensures var u, r := UpdateStates(s, i), Step(s, i);
            && (r.attention.awareness > s.attention.awareness <==>
                i.lowspeed && s.attention.awareness > 0.0 && (i.interacting || u.attention.step > 0.0))
            && r.attention.policy == Vision
            && (r.attention.awareness <= s.attention.awareness ==> r.alert == Two || r.alert == Three)
  {
    hide TickLockout, EnterLockout, Record;
    var a := UpdateStates(s, i).attention;
    RecoveryGains(a);
  }

  lemma {:induction false} RecoveredKeeps(a: Attention)
    ensures var r := Recovered(a); r.step == a.step && r.threshold1 == a.threshold1 && r.threshold2 == a.threshold2
  {}

  lemma {:induction false} RecoveryGains(a: Attention)
    requires GoodAttention(a) && a.policy == Vision && a.awareness <= VISION_ALERT_2
    ensures Recovered(a).awareness > a.awareness <==> a.step > 0.0
    ensures a.step == 0.0 ==> Recovered(a).awareness == a.awareness
  {}

  /** A frame that shows distraction for certain: of a face the model is sure of, and not only for a moment. */
  predicate Certain(c: Camera) { c.distracted && !c.uncertain && c.filter > 0.63 }

  /**
   * Under vision, at orange or worse, an engaged step takes awareness away exactly if it is not at low speed and its
   * frame shows distraction for certain. Without a face, or while the model is uncertain, the countdown stands still.
   * A step without a frame goes by what the last one left.
   */
  lemma {:induction false} OrangeCountsCertainFrames(s: State, i: Input)
    requires Good(s) && s.attention.policy == Vision && s.attention.awareness <= VISION_ALERT_2 && i.engaged
    ensures i.seen ==>
              (Step(s, i).attention.awareness < s.attention.awareness <==>
               s.attention.awareness > -0.1 && !i.lowspeed && Distracted(i)
               && s.camera.hiStds < HI_STD_FALLBACK_TIME && Filtered(s.camera.filter, true) > 0.63)
    ensures !i.seen ==>
              (Step(s, i).attention.awareness < s.attention.awareness <==>
               s.attention.awareness > -0.1 && !i.lowspeed && s.attention.step > 0.0 && Counts(s.camera)
               && !(s.attention.awareness > 0.0 && Attentive(s.camera)))
    ensures Step(s, i).attention.policy == Vision
  {
    hide TickLockout, EnterLockout, Record;
    RecoveryGains(UpdateStates(s, i).attention);
  }

  /** Every frame of the run is seen while engaged and not at low speed, and shows no attention. */
  ghost predicate Inattention(s: State, inputs: seq<Input>) {
    forall k :: 0 <= k < |inputs| ==> InattentiveFrame(Run(s, inputs[..k]), inputs[k])
  }

  predicate InattentiveFrame(s: State, i: Input) {
    i.seen && i.engaged && !i.lowspeed && !Attentive(Observe(s.camera, i))
  }

  /** The frames of a run that show distraction for certain. */
  function CertainFrames(s: State, inputs: seq<Input>): nat {
    if inputs == [] then 0
    else
      var init := inputs[..|inputs| - 1];
      CertainFrames(s, init)
      + (if Certain(Observe(Run(s, init).camera, inputs[|inputs| - 1])) then 1 else 0)
  }

  lemma {:induction false} InattentiveStep(s: State, i: Input)
    requires Good(s) && s.attention.policy == Vision && s.attention.awareness <= VISION_ALERT_2
    requires InattentiveFrame(s, i)
    ensures var a, r := s.attention.awareness, Step(s, i);
            && r.attention.policy == Vision
            && r.attention.awareness == (if Certain(Observe(s.camera, i)) then Max(a - VISION_STEP, -0.1) else a)
            && r.alert == if r.attention.awareness <= 0.0 then Three else Two
  {
    hide TickLockout, EnterLockout, Record;
  }

  /**
   * Inattention from orange on counts exactly the frames that show distraction for certain, whatever frames come
   * between them: level three is shown if and only if there have been enough.
   */
  lemma {:induction false} OrangeCountdown(s: State, inputs: seq<Input>)
    requires Good(s) && s.attention.policy == Vision && s.attention.awareness <= VISION_ALERT_2
    requires Inattention(s, inputs)
    ensures var a, n, r := s.attention.awareness, CertainFrames(s, inputs), Run(s, inputs);
            && r.attention.policy == Vision && r.attention.awareness == Max(a - n as real / 260.0, -0.1)
            && (inputs != [] ==> r.alert == if 260.0 * a <= n as real then Three else Two)
  {
    hide Step, Good, Certain, Inattention, InattentiveFrame, Observe, Run, CertainFrames, Max;
    var a := s.attention.awareness;
    RunOfNone(s);
    StartsAt(s);
    if inputs != [] {
      var n := |inputs| - 1;
      var init := inputs[..n];
      InattentionSplits(s, inputs);
      OrangeCountdown(s, init);
      RunKeepsGood(s, init);
      StaysLow(a, CertainFrames(s, init));
      InattentiveStep(Run(s, init), inputs[n]);
      assert inputs == init + [inputs[n]];
      RunStep(s, init, inputs[n]);
      CertainFramesStep(s, inputs, n);
      assert inputs[..n + 1] == inputs;
      CountedDown(a, CertainFrames(s, init));
      CountedDown(a, CertainFrames(s, inputs));
    } else {
      assert inputs == [];
    }
  }

  lemma {:induction false} RunOfNone(s: State)
    ensures Run(s, []) == s && CertainFrames(s, []) == 0
  {}

  lemma {:induction false} StartsAt(s: State)
    requires Good(s)
    ensures Max(s.attention.awareness - 0.0 / 260.0, -0.1) == s.attention.awareness
    ensures s.attention.awareness >= -0.1
  {}

  /** Counting one more frame, and when the count reaches zero. */
  lemma {:induction false} CountedDown(a: real, n: nat)
    ensures Max(Max(a - n as real / 260.0, -0.1) - VISION_STEP, -0.1) == Max(a - (n + 1) as real / 260.0, -0.1)
    ensures Max(a - n as real / 260.0, -0.1) <= 0.0 <==> 260.0 * a <= n as real
  {
    assert (n + 1) as real / 260.0 == n as real / 260.0 + VISION_STEP;
  }

  lemma {:induction false} StaysLow(a: real, n: nat)
    requires a <= VISION_ALERT_2
    ensures Max(a - n as real / 260.0, -0.1) <= VISION_ALERT_2
  {}

  lemma {:induction false} InattentionSplits(s: State, inputs: seq<Input>)
    requires Inattention(s, inputs) && inputs != []
    ensures var n := |inputs| - 1; Inattention(s, inputs[..n]) && InattentiveFrame(Run(s, inputs[..n]), inputs[n])
  {
    hide InattentiveFrame, Run;
    var n := |inputs| - 1;
    var init := inputs[..n];
    forall k | 0 <= k < n ensures InattentiveFrame(Run(s, init[..k]), init[k]) {
      assert init[..k] == inputs[..k];
    }
  }

  predicate CertainAt(s: State, inputs: seq<Input>, k: nat)
    requires k < |inputs|
  {
    Certain(Observe(Run(s, inputs[..k]).camera, inputs[k]))
  }

  lemma {:induction false} CertainFramesStep(s: State, inputs: seq<Input>, n: nat)
    requires n < |inputs|
    ensures CertainFrames(s, inputs[..n + 1]) ==
            CertainFrames(s, inputs[..n]) + if CertainAt(s, inputs, n) then 1 else 0
  {
    hide Certain, Observe, Run;
    assert inputs[..n + 1][..n] == inputs[..n];
  }

  lemma {:induction false} NoneCertain(s: State, inputs: seq<Input>, n: nat)
    requires n <= |inputs| && forall k :: 0 <= k < n ==> !CertainAt(s, inputs, k)
    ensures CertainFrames(s, inputs[..n]) == 0
  {
    if n > 0 {
      hide CertainAt, CertainFrames;
      NoneCertain(s, inputs, n - 1);
      CertainFramesStep(s, inputs, n - 1);
    }
  }

  /** Without a face the orange alert of the vision policy stays as it is: awareness neither falls nor recovers. */
  lemma {:induction false} OrangeFreezesWithoutFace(s: State, inputs: seq<Input>)
    requires Good(s) && s.attention.policy == Vision && 0.0 < s.attention.awareness <= VISION_ALERT_2
    requires forall k :: 0 <= k < |inputs| ==>
               inputs[k].engaged && inputs[k].seen && !inputs[k].face && !inputs[k].lowspeed
    ensures var r := Run(s, inputs);
            && r.attention.awareness == s.attention.awareness && r.attention.policy == Vision
            && (inputs != [] ==> r.alert == Two)
  {
    hide Run, Step, Good;
    NoneCertain(s, inputs, |inputs|);
    assert inputs[..|inputs|] == inputs;
    OrangeCountdown(s, inputs);
  }

  /** A face the model has been uncertain about for too long. */
  predicate UncertainInput(i: Input) { i.seen && i.engaged && !i.lowspeed && i.face && !i.lowStd }

  lemma {:induction false} UncertaintyLasts(s: State, inputs: seq<Input>)
    requires s.camera.hiStds >= HI_STD_FALLBACK_TIME
    requires forall k :: 0 <= k < |inputs| ==> UncertainInput(inputs[k])
    ensures Run(s, inputs).camera.hiStds >= HI_STD_FALLBACK_TIME
  {
    if inputs != [] {
      var init := inputs[..|inputs| - 1];
      UncertaintyLasts(s, init);
      CameraOfStep(Run(s, init), inputs[|inputs| - 1]);
      hide Step;
    }
  }

  lemma {:induction false} CameraOfStep(s: State, i: Input)
    ensures Step(s, i).camera == if i.seen then CountStds(Observe(s.camera, i)) else s.camera
  {
    hide Attend, TickLockout, EnterLockout, Record, Level;
  }

  /** So it does with a face in view, as long as the model stays uncertain of it. */
  lemma {:induction false} OrangeFreezesWhileUncertain(s: State, inputs: seq<Input>)
    requires Good(s) && s.attention.policy == Vision && 0.0 < s.attention.awareness <= VISION_ALERT_2
    requires s.camera.hiStds >= HI_STD_FALLBACK_TIME
    requires forall k :: 0 <= k < |inputs| ==> UncertainInput(inputs[k])
    ensures var r := Run(s, inputs);
            && r.attention.awareness == s.attention.awareness && r.attention.policy == Vision
            && (inputs != [] ==> r.alert == Two)
  {
    hide Run, Step, Good;
    forall k | 0 <= k < |inputs| ensures Run(s, inputs[..k]).camera.hiStds >= HI_STD_FALLBACK_TIME {
      UncertaintyLasts(s, inputs[..k]);
    }
    NoneCertain(s, inputs, |inputs|);
    assert inputs[..|inputs|] == inputs;
    OrangeCountdown(s, inputs);
  }

  // ---------- escalation ----------

  /** The alert after k steps of inattention that started at full awareness. */
  function Expected(k: int, one: nat, two: nat, three: nat): AlertLevel {
    if k < one then None else if k < two then One else if k < three then Two else Three
  }

  predicate VisionInput(i: Input) { i.seen && i.engaged && !i.lowspeed && Distracted(i) }

  predicate WheeltouchInput(i: Input) { i.seen && i.engaged && !i.lowspeed && !i.face && !i.interacting }

  /** One more step certain of distraction. */
  lemma {:induction false} VisionStep(s: State, i: Input, k: nat)
    requires Good(s) && s.attention.policy == Vision && s.attention.awareness == Max(1.0 - k as real / 260.0, -0.1)
    requires s.camera.filter > 0.63 && s.camera.hiStds < HI_STD_FALLBACK_TIME && VisionInput(i)
    ensures var r := Step(s, i);
            && r.attention.policy == Vision && r.attention.awareness == Max(1.0 - (k + 1) as real / 260.0, -0.1)
            && r.camera.filter > 0.63 && r.camera.hiStds < HI_STD_FALLBACK_TIME
            && r.alert == Expected(k + 1, 100, 160, 260)
  {
    var u := UpdateStates(s, i);
    assert u.attention.step == VISION_STEP && u.attention.policy == Vision && u.camera.filter > 0.63;
    assert u.attention.awareness == s.attention.awareness;
    assert u.attention.threshold1 == VISION_ALERT_1 && u.attention.threshold2 == VISION_ALERT_2;
    assert Counts(u.camera) && !Attentive(u.camera);
    hide TickLockout, EnterLockout, Record, SetPolicy, Good, Observe, CountStds, UpdateStates;
    assert (k + 1) as real / 260.0 == k as real / 260.0 + VISION_STEP;
  }

  /** Certain distraction from full awareness: level one from step 100, two from step 160, three from step 260 on. */
  lemma {:induction false} VisionEscalates(s: State, inputs: seq<Input>)
    requires Good(s) && s.attention.policy == Vision && s.attention.awareness == 1.0
    requires s.camera.filter > 0.63 && s.camera.hiStds < HI_STD_FALLBACK_TIME
    requires forall k :: 0 <= k < |inputs| ==> VisionInput(inputs[k])
    ensures var r := Run(s, inputs);
            && r.attention.policy == Vision
            && r.attention.awareness == Max(1.0 - |inputs| as real / 260.0, -0.1)
            && r.camera.filter > 0.63 && r.camera.hiStds < HI_STD_FALLBACK_TIME
            && (inputs != [] ==> r.alert == Expected(|inputs|, 100, 160, 260))
  {
    if inputs != [] {
      var init := inputs[..|inputs| - 1];
      VisionEscalates(s, init);
      RunKeepsGood(s, init);
      VisionStep(Run(s, init), inputs[|inputs| - 1], |init|);
      hide Step, Good;
    }
  }

  // ---------- always on ----------

  predicate ParkedInput(i: Input) {
    i.seen && !i.engaged && !i.wrongGear && !i.lowspeed && Distracted(i)
  }

  /** What is left after k steps of distraction that cannot end in red: 1/260 at least. */
  function Kept(k: nat): real { if k <= 259 then 1.0 - k as real / 260.0 else 1.0 / 260.0 }

  lemma {:induction false} AlwaysOnStep(s: State, i: Input, k: nat)
    requires Good(s) && s.alwaysOn && s.attention.policy == Vision && s.attention.awareness == Kept(k)
    requires s.camera.filter > 0.63 && s.camera.hiStds < HI_STD_FALLBACK_TIME && ParkedInput(i)
    ensures var r := Step(s, i);
            && r.alwaysOn && r.attention.policy == Vision && r.attention.awareness == Kept(k + 1)
            && r.camera.filter > 0.63 && r.camera.hiStds < HI_STD_FALLBACK_TIME
            && r.alert == if k + 1 < 100 then None else if k + 1 < 160 then One else Two
  {
    var u := UpdateStates(s, i);
    assert u.attention.step == VISION_STEP && u.attention.policy == Vision && u.camera.filter > 0.63;
    assert u.attention.awareness == s.attention.awareness;
    assert u.attention.threshold1 == VISION_ALERT_1 && u.attention.threshold2 == VISION_ALERT_2;
    assert Counts(u.camera) && !Attentive(u.camera);
    hide TickLockout, EnterLockout, Record, SetPolicy, Good, Observe, CountStds, UpdateStates;
    assert (k + 1) as real / 260.0 == k as real / 260.0 + VISION_STEP;
  }

  /** With monitoring always on, certain distraction while not engaged is alerted as early as while engaged, but level
      two is the last: awareness stays above 0. */
  lemma {:induction false} AlwaysOnNeverReachesRed(s: State, inputs: seq<Input>)
    requires Good(s) && s.alwaysOn && s.attention.policy == Vision && s.attention.awareness == 1.0
    requires s.camera.filter > 0.63 && s.camera.hiStds < HI_STD_FALLBACK_TIME
    requires forall k :: 0 <= k < |inputs| ==> ParkedInput(inputs[k])
    ensures var r := Run(s, inputs);
            && r.alwaysOn && r.attention.policy == Vision && r.attention.awareness == Kept(|inputs|) > 0.0
            && r.camera.filter > 0.63 && r.camera.hiStds < HI_STD_FALLBACK_TIME
            && (inputs != [] ==> r.alert == if |inputs| < 100 then None else if |inputs| < 160 then One else Two)
  {
    if inputs != [] {
      var init := inputs[..|inputs| - 1];
      AlwaysOnNeverReachesRed(s, init);
      RunKeepsGood(s, init);
      AlwaysOnStep(Run(s, init), inputs[|inputs| - 1], |init|);
      hide Step, Good;
    }
  }

  /** While not engaged everything is restored, unless monitoring is always on, in a forward gear and not at red; then
      red is not reached. */
  lemma {:induction false} DisengagingResets(s: State, i: Input)
    requires Good(s) && !i.engaged
    ensures var a, r := UpdateStates(s, i).attention, Step(s, i);
            if s.alwaysOn && !i.wrongGear && a.awareness > 0.0 then r.attention.awareness > 0.0 && r.alert != Three
            else
              && r.attention.awareness == 1.0 && r.attention.lastVision == 1.0 && r.attention.lastWheeltouch == 1.0
              && r.alert == None
  {
    PolicyKeepsGood(s.attention, Target(Observe(s.camera, i)));
    hide TickLockout, EnterLockout, Record, UpdateStates, Attend, GoodAttention;
    var u := UpdateStates(s, i);
    DisengagedAttend(u.attention, u.camera, u.alwaysOn && !i.wrongGear, i);
  }

  lemma {:induction false} DisengagedAttend(a: Attention, c: Camera, alwaysOn: bool, i: Input)
    requires GoodAttention(a) && !i.engaged
    ensures var v := Attend(a, c, alwaysOn, i);
            if alwaysOn && a.awareness > 0.0 then v.attention.awareness > 0.0
            else v == Verdict(ResetAwareness(a), false)
  {
    if a.step == 0.0 {} else if a.step == VISION_STEP {} else {}
  }

  // ---------- escalation without a face ----------

  /** Until the first frame no face counts as seen: engaged from start-up without frames, alerts come at the steps of
      the vision policy. */
  lemma {:induction false} BlindFromTheStart(alwaysOn: bool, savedLockout: bool, savedCount: nat, inputs: seq<Input>)
    requires forall k :: 0 <= k < |inputs| ==> !inputs[k].seen && inputs[k].engaged && !inputs[k].lowspeed
    ensures var r := Run(Initial(alwaysOn, savedLockout, savedCount), inputs);
            && r.attention.policy == Vision && r.attention.step == 1.0 / 260.0 && !r.camera.face
            && r.attention.awareness == Max(1.0 - |inputs| as real / 260.0, -0.1)
            && (inputs != [] ==> r.alert == Expected(|inputs|, 100, 160, 260))
  {
    var s := Initial(alwaysOn, savedLockout, savedCount);
    if inputs != [] {
      var init, i := inputs[..|inputs| - 1], inputs[|inputs| - 1];
      BlindFromTheStart(alwaysOn, savedLockout, savedCount, init);
      InitialIsGood(alwaysOn, savedLockout, savedCount);
      RunKeepsGood(s, init);
      BlindStep(Run(s, init), i, |init|);
      hide Step, Initial, Good;
    }
  }

  lemma {:induction false} BlindStep(s: State, i: Input, k: nat)
    requires Good(s) && s.attention.policy == Vision && s.attention.step == 1.0 / 260.0 && !s.camera.face
    requires s.attention.awareness == Max(1.0 - k as real / 260.0, -0.1)
    requires !i.seen && i.engaged && !i.lowspeed
    ensures var r := Step(s, i);
            && r.attention.policy == Vision && r.attention.step == 1.0 / 260.0 && !r.camera.face
            && r.attention.awareness == Max(1.0 - (k + 1) as real / 260.0, -0.1)
            && r.alert == Expected(k + 1, 100, 160, 260)
  {
    assert UpdateStates(s, i) == s;
    hide TickLockout, EnterLockout, Record, GoodLedger, UpdateStates;
    assert (k + 1) as real / 260.0 == k as real / 260.0 + 1.0 / 260.0;
  }

  /** A run with the state in which the first step under the wheel-touch policy begins. */
  ghost predicate ReadyForWheeltouch(a: Attention) {
    a.awareness == 1.0 && (a.policy == Wheeltouch || a.lastWheeltouch == 1.0)
  }

  lemma {:induction false} WheeltouchStep(s: State, i: Input, k: nat)
    requires Good(s) && WheeltouchInput(i)
    requires if k == 0 then ReadyForWheeltouch(s.attention)
             else s.attention.policy == Wheeltouch && s.attention.awareness == Max(1.0 - k as real / 500.0, -0.1)
    ensures var r := Step(s, i);
            && r.attention.policy == Wheeltouch && r.attention.awareness == Max(1.0 - (k + 1) as real / 500.0, -0.1)
            && r.alert == Expected(k + 1, 100, 300, 500)
  {
    var u := UpdateStates(s, i);
    assert u.attention.step == WHEELTOUCH_STEP && u.attention.policy == Wheeltouch;
    assert u.attention.awareness == Max(1.0 - k as real / 500.0, -0.1);
    assert u.attention.threshold1 == WHEELTOUCH_ALERT_1 && u.attention.threshold2 == WHEELTOUCH_ALERT_2;
    assert Counts(u.camera) && !Attentive(u.camera);
    hide TickLockout, EnterLockout, Record, SetPolicy, Good, Observe, CountStds, UpdateStates;
    assert (k + 1) as real / 500.0 == k as real / 500.0 + WHEELTOUCH_STEP;
  }

  /** No face and no driver input from full awareness: level one from step 100, two from step 300, three from step
      500 on. */
  lemma {:induction false} WheeltouchEscalates(s: State, inputs: seq<Input>)
    requires Good(s) && ReadyForWheeltouch(s.attention)
    requires forall k :: 0 <= k < |inputs| ==> WheeltouchInput(inputs[k])
    ensures inputs != [] ==>
              var r := Run(s, inputs);
              && r.attention.policy == Wheeltouch
              && r.attention.awareness == Max(1.0 - |inputs| as real / 500.0, -0.1)
              && r.alert == Expected(|inputs|, 100, 300, 500)
  {
    if inputs != [] {
      var init := inputs[..|inputs| - 1];
      WheeltouchEscalates(s, init);
      RunKeepsGood(s, init);
      assert init == [] ==> Run(s, init) == s;
      WheeltouchStep(Run(s, init), inputs[|inputs| - 1], |init|);
      hide Step, Good;
    }
  }

  // ---------- what gives awareness back ----------

  /** An input that shows an attentive driver. */
  predicate AttentiveInput(i: Input) { i.seen && i.face && i.lowStd && !i.inattentive }

  /** Touching the wheel under the wheel-touch policy makes good everything, unless red has been reached. */
  lemma {:induction false} TouchResets(s: State, i: Input)
    requires UpdateStates(s, i).attention.policy == Wheeltouch && UpdateStates(s, i).attention.awareness > 0.0
    requires i.interacting
    ensures var r := Step(s, i);
            && r.attention.awareness == 1.0 && r.attention.lastVision == 1.0 && r.attention.lastWheeltouch == 1.0
            && r.alert == None
  {
    hide TickLockout, EnterLockout, Record, SetPolicy, Observe, CountStds;
  }

  /** A frame without a face, while engaged and not at low speed; the driver may touch the wheel or not. */
  predicate FacelessInput(i: Input) { i.seen && i.engaged && !i.lowspeed && !i.face }

  /** The steps since the driver last touched the wheel. */
  function Untouched(inputs: seq<Input>): nat {
    if inputs == [] || inputs[|inputs| - 1].interacting then 0 else Untouched(inputs[..|inputs| - 1]) + 1
  }

  lemma {:induction false} FacelessStep(s: State, i: Input, k: nat)
    requires Good(s) && FacelessInput(i) && k < 500
    requires s.attention.awareness == 1.0 - k as real / 500.0
    requires s.attention.policy == Wheeltouch || (k == 0 && s.attention.lastWheeltouch == 1.0)
    ensures var n, r := if i.interacting then 0 else k + 1, Step(s, i);
            && r.attention.policy == Wheeltouch && r.attention.awareness == 1.0 - n as real / 500.0
            && r.alert == Expected(n, 100, 300, 500)
  {
    var u := UpdateStates(s, i);
    assert u.attention.policy == Wheeltouch && u.attention.awareness == s.attention.awareness > 0.0;
    if i.interacting {
      TouchResets(s, i);
      StepKeepsPolicy(s, i);
    } else {
      assert s.attention.awareness == Max(1.0 - k as real / 500.0, -0.1);
      assert k == 0 ==> ReadyForWheeltouch(s.attention);
      WheeltouchStep(s, i, k);
    }
    hide Step, UpdateStates, Good;
    assert k < 500 ==> 1.0 - (k + 1) as real / 500.0 > -0.1;
  }

  lemma {:induction false} StepKeepsPolicy(s: State, i: Input)
    ensures Step(s, i).attention.policy == UpdateStates(s, i).attention.policy
  {
    var u := UpdateStates(s, i);
    AttendKeepsPolicy(u.attention, u.camera, u.alwaysOn && !i.wrongGear, i);
    hide Attend, UpdateStates;
  }

  /**
   * Without a face in view the alert counts the steps since the wheel was last touched, over any run that starts with
   * full awareness and in which red has not been reached before.
   */
  lemma {:induction false} WheeltouchCountsFromTouch(s: State, inputs: seq<Input>)
    requires Good(s) && ReadyForWheeltouch(s.attention)
    requires Faceless(inputs)
    ensures inputs != [] ==>
              var n, r := Untouched(inputs), Run(s, inputs);
              && r.attention.policy == Wheeltouch && r.attention.awareness == 1.0 - n as real / 500.0
              && r.alert == Expected(n, 100, 300, 500)
  {
    hide Step, Good, Expected, Run, Faceless, FacelessInput;
    if inputs != [] {
      var n := |inputs| - 1;
      var init := inputs[..n];
      FacelessSplits(inputs);
      WheeltouchCountsFromTouch(s, init);
      RunKeepsGood(s, init);
      if init == [] { RunOfNone(s); }
      FacelessStep(Run(s, init), inputs[n], Untouched(init));
      assert inputs == init + [inputs[n]];
      RunStep(s, init, inputs[n]);
    }
  }

  /** No face is seen, and red has not been reached before the last step. */
  ghost predicate Faceless(inputs: seq<Input>) {
    forall k :: 0 <= k < |inputs| ==> FacelessInput(inputs[k]) && Untouched(inputs[..k]) < 500
  }

  lemma {:induction false} FacelessSplits(inputs: seq<Input>)
    requires Faceless(inputs) && inputs != []
    ensures var n := |inputs| - 1;
            Faceless(inputs[..n]) && FacelessInput(inputs[n]) && Untouched(inputs[..n]) < 500
  {
    hide Untouched, FacelessInput;
    var n := |inputs| - 1;
    var init := inputs[..n];
    forall k | 0 <= k < n ensures FacelessInput(init[k]) && Untouched(init[..k]) < 500 {
      assert init[..k] == inputs[..k];
    }
  }

  /** Some step among the 100 from k on touches the wheel. */
  ghost predicate TouchedWithin(inputs: seq<Input>, k: nat) {
    exists j :: k <= j < k + 100 && j < |inputs| && inputs[j].interacting
  }

  lemma {:induction false} UntouchedBound(inputs: seq<Input>)
    ensures Untouched(inputs) <= |inputs|
    ensures forall j :: |inputs| - Untouched(inputs) <= j < |inputs| ==> !inputs[j].interacting
  {
    if inputs != [] && !inputs[|inputs| - 1].interacting {
      var init := inputs[..|inputs| - 1];
      UntouchedBound(init);
      assert forall j :: 0 <= j < |init| ==> init[j] == inputs[j];
    }
  }

  lemma {:induction false} UntouchedIsShort(inputs: seq<Input>, n: nat)
    requires n <= |inputs| && forall k: nat :: k + 100 <= |inputs| ==> TouchedWithin(inputs, k)
    ensures Untouched(inputs[..n]) < 100
  {
    UntouchedBound(inputs[..n]);
    if Untouched(inputs[..n]) >= 100 {
      assert TouchedWithin(inputs, n - 100);
      var j :| n - 100 <= j < n && j < |inputs| && inputs[j].interacting;
      assert false;
    }
  }

  /** A driver without a visible face who touches the wheel at least once in every 100 steps is never alerted. */
  lemma {:induction false} TouchingIsNeverAlerted(s: State, inputs: seq<Input>)
    requires Good(s) && ReadyForWheeltouch(s.attention)
    requires forall k :: 0 <= k < |inputs| ==> FacelessInput(inputs[k])
    requires forall k: nat :: k + 100 <= |inputs| ==> TouchedWithin(inputs, k)
    ensures inputs != [] ==> Run(s, inputs).alert == None
  {
    forall k | 0 <= k <= |inputs| ensures Untouched(inputs[..k]) < 100 {
      UntouchedIsShort(inputs, k);
    }
    assert inputs[..|inputs|] == inputs;
    WheeltouchCountsFromTouch(s, inputs);
    hide Run, Untouched, TouchedWithin;
  }

  /** A power, to say how fast something shrinks. */
  function Power(q: real, n: nat): real { if n == 0 then 1.0 else q * Power(q, n - 1) }

  /** By how much of its distance from 4/3 awareness still falls short after one attentive step. */
  const RECOVERY_RATE: real := 1.0 - 3.75 / 260.0

  /** What n attentive steps make of awareness a. */
  function Restored(a: real, n: nat): real { Min(4.0 / 3.0 - (4.0 / 3.0 - a) * Power(RECOVERY_RATE, n), 1.0) }

  lemma {:induction false} RestoredStep(a: real, n: nat)
    requires 0.0 < a <= 1.0
    ensures var b := Restored(a, n);
            0.0 < b <= 1.0 && Restored(a, n + 1) == Min(b + (3.75 * (1.0 - b) + 1.25) / 260.0, 1.0)
  {
    PowerIsSmall(n);
    var left := (4.0 / 3.0 - a) * Power(RECOVERY_RATE, n);
    LeftIs(a, Power(RECOVERY_RATE, n));
    assert (4.0 / 3.0 - a) * Power(RECOVERY_RATE, n + 1) == RECOVERY_RATE * left;
    hide Power;
  }

  lemma {:induction false} LeftIs(a: real, p: real)
    requires 0.0 < a <= 1.0 && 0.0 < p <= 1.0
    ensures 0.0 < (4.0 / 3.0 - a) * p < 4.0 / 3.0
  {}

  lemma {:induction false} PowerIsSmall(n: nat)
    ensures 0.0 < Power(RECOVERY_RATE, n) <= 1.0
  {
    if n > 0 { PowerIsSmall(n - 1); }
  }

  /** Engaged and attentive, and not touching anything. */
  predicate WatchingInput(i: Input) { AttentiveInput(i) && i.engaged && !i.interacting }

  lemma {:induction false} WatchingStep(s: State, i: Input)
    requires Good(s) && WatchingInput(i) && s.attention.policy == Vision && s.attention.awareness > 0.0
    requires s.camera.filter < 0.37 && s.camera.hiStds < HI_STD_FALLBACK_TIME
    ensures var a, r := s.attention.awareness, Step(s, i);
            && r.attention.policy == Vision
            && r.attention.awareness == Min(a + (3.75 * (1.0 - a) + 1.25) / 260.0, 1.0)
            && r.attention.lastWheeltouch ==
               (if r.attention.awareness == 1.0 then Min(s.attention.lastWheeltouch + 1.0 / 260.0, 1.0)
                else s.attention.lastWheeltouch)
            && r.alert == (if r.attention.awareness <= VISION_ALERT_2 then Two else None)
            && r.camera.filter < 0.37 && r.camera.hiStds < HI_STD_FALLBACK_TIME
  {
    hide TickLockout, EnterLockout, Record;
  }

  /** Attention closes the gap between awareness and 4/3 by the same factor on every step, until awareness is full. */
  lemma {:induction false} AttentionRestores(s: State, inputs: seq<Input>)
    requires Good(s) && s.attention.policy == Vision && s.attention.awareness > 0.0
    requires s.camera.filter < 0.37 && s.camera.hiStds < HI_STD_FALLBACK_TIME
    requires forall k :: 0 <= k < |inputs| ==> WatchingInput(inputs[k])
    ensures var r := Run(s, inputs);
            && r.attention.policy == Vision && r.attention.awareness == Restored(s.attention.awareness, |inputs|) > 0.0
            && r.camera.filter < 0.37 && r.camera.hiStds < HI_STD_FALLBACK_TIME
            && (inputs != [] ==> r.alert == if r.attention.awareness <= VISION_ALERT_2 then Two else None)
  {
    AwarenessAtMostOne(s);
    RestoredStep(s.attention.awareness, |inputs|);
    if inputs == [] {
      assert Power(RECOVERY_RATE, 0) == 1.0;
    } else {
      var init := inputs[..|inputs| - 1];
      AttentionRestores(s, init);
      RunKeepsGood(s, init);
      WatchingStep(Run(s, init), inputs[|inputs| - 1]);
      RestoredStep(s.attention.awareness, |init|);
      hide Step, Good, Restored, Power;
    }
  }

  lemma {:induction false} AwarenessAtMostOne(s: State)
    requires Good(s)
    ensures s.attention.awareness <= 1.0
  {}

  /** With awareness full, attention also restores what is kept for the wheel-touch policy, a step at a time. */
  lemma {:induction false} AttentionRestoresWheeltouch(s: State, inputs: seq<Input>)
    requires Good(s) && s.attention.policy == Vision && s.attention.awareness == 1.0
    requires s.camera.filter < 0.37 && s.camera.hiStds < HI_STD_FALLBACK_TIME
    requires forall k :: 0 <= k < |inputs| ==> WatchingInput(inputs[k])
    ensures var r := Run(s, inputs);
            && r.attention.policy == Vision && r.attention.awareness == 1.0
            && r.attention.lastWheeltouch == Min(s.attention.lastWheeltouch + |inputs| as real / 260.0, 1.0)
            && r.camera.filter < 0.37 && r.camera.hiStds < HI_STD_FALLBACK_TIME
  {
    SavedAtMostOne(s);
    if inputs != [] {
      var init := inputs[..|inputs| - 1];
      AttentionRestoresWheeltouch(s, init);
      RunKeepsGood(s, init);
      WatchingStep(Run(s, init), inputs[|inputs| - 1]);
      hide Step, Good;
      OneMoreFrame(|init|);
    }
  }

  lemma {:induction false} OneMoreFrame(n: nat)
    ensures (n + 1) as real / 260.0 == n as real / 260.0 + 1.0 / 260.0
  {}

  lemma {:induction false} SavedAtMostOne(s: State)
    requires Good(s)
    ensures s.attention.lastWheeltouch <= 1.0
  {}

  /** An attentive driver who does something is taken to be fully aware again, unless red has been reached. */
  lemma {:induction false} AttentiveTouchResets(s: State, i: Input)
    requires AttentiveInput(i) && i.interacting && s.camera.filter < 0.37
    requires UpdateStates(s, i).attention.awareness > 0.0
    ensures var r := Step(s, i);
            && r.attention.awareness == 1.0 && r.attention.lastVision == 1.0 && r.attention.lastWheeltouch == 1.0
            && r.alert == None
  {
    hide TickLockout, EnterLockout, Record, SetPolicy;
  }

  lemma {:induction false} AttentiveStep(s: State, i: Input)
    requires Good(s) && AttentiveInput(i)
    requires s.attention.policy == Vision && s.attention.awareness == 1.0
    requires s.camera.filter < 0.37 && s.camera.hiStds < HI_STD_FALLBACK_TIME
    ensures var r := Step(s, i);
            && r.attention.policy == Vision && r.attention.awareness == 1.0 && r.alert == None
            && r.camera.filter < 0.37 && r.camera.hiStds < HI_STD_FALLBACK_TIME
  {
    hide TickLockout, EnterLockout, Record;
  }

  /** A driver who pays attention is never alerted, engaged or not. */
  lemma {:induction false} AttentiveIsNeverAlerted(s: State, inputs: seq<Input>)
    requires Good(s) && s.attention.policy == Vision && s.attention.awareness == 1.0
    requires s.camera.filter < 0.37 && s.camera.hiStds < HI_STD_FALLBACK_TIME
    requires forall k :: 0 <= k < |inputs| ==> AttentiveInput(inputs[k])
    ensures var r := Run(s, inputs);
            && r.attention.policy == Vision && r.attention.awareness == 1.0 && (inputs != [] ==> r.alert == None)
            && r.camera.filter < 0.37 && r.camera.hiStds < HI_STD_FALLBACK_TIME
  {
    if inputs != [] {
      var init := inputs[..|inputs| - 1];
      AttentiveIsNeverAlerted(s, init);
      RunKeepsGood(s, init);
      AttentiveStep(Run(s, init), inputs[|inputs| - 1]);
      hide Step, Good;
    }
  }

  /** How far the distraction filter has risen after n distracted frames; five are not enough, six are. */
  function Risen(n: nat): real { if n == 0 then 0.0 else Filtered(Risen(n - 1), true) }

  lemma {:induction false} RisenTable()
    ensures Risen(5) <= 0.63 < Risen(6)
    ensures forall n: nat :: n <= 5 ==> 0.0 <= Risen(n) <= 0.63
  {
    assert Risen(1) == 1.0 / 6.0;
    assert Risen(2) == 11.0 / 36.0;
    assert Risen(3) == 91.0 / 216.0;
    assert Risen(4) == 671.0 / 1296.0;
    assert Risen(5) == 4651.0 / 7776.0;
    assert Risen(6) == 31031.0 / 46656.0;
  }

  /** A frame of distraction that the filter does not believe yet costs nothing at full awareness. */
  lemma {:induction false} DoubtfulStep(s: State, i: Input, n: nat)
    requires Good(s) && s.attention.policy == Vision && s.attention.awareness == 1.0
    requires s.camera.filter == Risen(n) && Risen(n + 1) <= 0.63
    requires s.camera.hiStds < HI_STD_FALLBACK_TIME && VisionInput(i)
    ensures var r := Step(s, i);
            && r.attention.policy == Vision && r.attention.awareness == 1.0 && r.alert == None
            && r.camera.filter == Risen(n + 1) && r.camera.hiStds < HI_STD_FALLBACK_TIME
  {
    hide TickLockout, EnterLockout, Record;
  }

  lemma {:induction false} DoubtfulSteps(s: State, inputs: seq<Input>)
    requires Good(s) && s.attention.policy == Vision && s.attention.awareness == 1.0
    requires s.camera.filter == 0.0 && s.camera.hiStds < HI_STD_FALLBACK_TIME
    requires |inputs| <= 5 && forall k :: 0 <= k < |inputs| ==> VisionInput(inputs[k])
    ensures var r := Run(s, inputs);
            && r.attention.policy == Vision && r.attention.awareness == 1.0 && (inputs != [] ==> r.alert == None)
            && r.camera.filter == Risen(|inputs|) && r.camera.hiStds < HI_STD_FALLBACK_TIME
  {
    if inputs != [] {
      var init := inputs[..|inputs| - 1];
      DoubtfulSteps(s, init);
      RunKeepsGood(s, init);
      RisenTable();
      DoubtfulStep(Run(s, init), inputs[|inputs| - 1], |init|);
      hide Step, Good;
    }
  }

  lemma {:induction false} SixthStep(s: State, i: Input)
    requires Good(s) && s.attention.policy == Vision && s.attention.awareness == 1.0
    requires s.camera.filter == Risen(5) && s.camera.hiStds < HI_STD_FALLBACK_TIME && VisionInput(i)
    ensures var r := Step(s, i);
            && r.attention.policy == Vision && r.attention.awareness == Max(1.0 - 1.0 / 260.0, -0.1)
            && r.camera.filter > 0.63 && r.camera.hiStds < HI_STD_FALLBACK_TIME && r.alert == None
  {
    RisenTable();
    var u := UpdateStates(s, i);
    assert u.camera.filter == Risen(6);
    hide TickLockout, EnterLockout, Record, Risen;
  }

  /**
   * From the start of monitoring, engaged and distracted in every frame: the filter believes it from the sixth frame
   * on, so level one begins at step 105, two at step 165 and three at step 265.
   */
  lemma {:induction false} DistractedFromTheStart(alwaysOn: bool, savedLockout: bool, savedCount: nat,
      inputs: seq<Input>)
    requires forall k :: 0 <= k < |inputs| ==> VisionInput(inputs[k])
    ensures var r := Run(Initial(alwaysOn, savedLockout, savedCount), inputs);
            && r.attention.policy == Vision && r.camera.hiStds < HI_STD_FALLBACK_TIME
            && (|inputs| >= 6 ==> r.camera.filter > 0.63)
            && (|inputs| >= 5 ==> r.attention.awareness == Max(1.0 - (|inputs| - 5) as real / 260.0, -0.1))
            && (inputs != [] ==> r.alert == Expected(|inputs| - 5, 100, 160, 260))
  {
    hide Initial, Step, Good, VisionInput;
    var s := Initial(alwaysOn, savedLockout, savedCount);
    InitialIsGood(alwaysOn, savedLockout, savedCount);
    if |inputs| <= 5 {
      DoubtfulSteps(s, inputs);
    } else {
      var init, i := inputs[..|inputs| - 1], inputs[|inputs| - 1];
      RunKeepsGood(s, init);
      if |inputs| == 6 {
        DoubtfulSteps(s, init);
        SixthStep(Run(s, init), i);
      } else {
        DistractedFromTheStart(alwaysOn, savedLockout, savedCount, init);
        VisionStep(Run(s, init), i, |init| - 5);
      }
    }
  }

  // ---------- what the camera makes of the driver ----------

  /** The distance from 1 or from 0, scaled by p. */
  function Nearer(x: real, p: real, up: bool): real { if up then 1.0 - (1.0 - x) * p else x * p }

  /** Over frames of the same kind the filter closes a sixth of the distance to 1 or to 0 with each of them. */
  lemma {:induction false} FilterFollows(s: State, inputs: seq<Input>, distracted: bool)
    requires forall k :: 0 <= k < |inputs| ==> inputs[k].seen && Distracted(inputs[k]) == distracted
    ensures Run(s, inputs).camera.filter == Nearer(s.camera.filter, Power(5.0 / 6.0, |inputs|), distracted)
  {
    hide *;
    if inputs != [] {
      var init, i := inputs[..|inputs| - 1], inputs[|inputs| - 1];
      FilterFollows(s, init, distracted);
      FilterOfStep(Run(s, init), i);
      NearerStill(s.camera.filter, |init|, distracted);
      RunStep(s, init, i);
      assert init + [i] == inputs;
    } else {
      NothingSeen(s, distracted);
    }
  }

  lemma {:induction false} NothingSeen(s: State, distracted: bool)
    ensures Run(s, []) == s && s.camera.filter == Nearer(s.camera.filter, Power(5.0 / 6.0, 0), distracted)
  {}

  lemma {:induction false} NearerStill(x: real, n: nat, up: bool)
    ensures Nearer(x, Power(5.0 / 6.0, n + 1), up) == Nearer(Nearer(x, Power(5.0 / 6.0, n), up), 5.0 / 6.0, up)
  {
    var p := Power(5.0 / 6.0, n);
    assert Power(5.0 / 6.0, n + 1) == 5.0 / 6.0 * p;
    hide Power;
    if up {
      assert ((1.0 - x) * p) * (5.0 / 6.0) == (1.0 - x) * (5.0 / 6.0 * p);
    } else {
      assert (x * p) * (5.0 / 6.0) == x * (5.0 / 6.0 * p);
    }
  }

  lemma {:induction false} FilterOfStep(s: State, i: Input)
    requires i.seen
    ensures Step(s, i).camera.filter == Nearer(s.camera.filter, 5.0 / 6.0, Distracted(i))
  {
    hide Attend, EnterLockout, TickLockout, Record, SetPolicy, Level, Distracted;
  }

  /** Six frames in which the driver is not distracted are enough to be believed, whatever was before. */
  lemma {:induction false} SixFramesClear(s: State, inputs: seq<Input>)
    requires Good(s) && |inputs| >= 6
    requires forall k :: 0 <= k < |inputs| ==> inputs[k].seen && !Distracted(inputs[k])
    ensures Run(s, inputs).camera.filter < 0.37
  {
    hide Distracted, Run, GoodAttention, GoodLedger;
    FilterFollows(s, inputs, false);
    SixthPower(|inputs|);
    var x, p := s.camera.filter, Power(5.0 / 6.0, |inputs|);
    assert (1.0 - x) * p >= 0.0;
  }

  lemma {:induction false} SixthPower(n: nat)
    requires n >= 6
    ensures 0.0 <= Power(5.0 / 6.0, n) < 0.37
  {
    if n > 6 {
      SixthPower(n - 1);
    } else {
      assert Power(5.0 / 6.0, 1) == 5.0 / 6.0;
      assert Power(5.0 / 6.0, 2) == 25.0 / 36.0;
      assert Power(5.0 / 6.0, 3) == 125.0 / 216.0;
      assert Power(5.0 / 6.0, 4) == 625.0 / 1296.0;
      assert Power(5.0 / 6.0, 5) == 3125.0 / 7776.0;
    }
  }

  /** Frames of a face without certainty are counted, and uncertainty is declared after 200 of them; one certain frame
      clears the count, and a frame without a face leaves it alone. */
  lemma {:induction false} UncertainAfter200(s: State, inputs: seq<Input>, next: Input)
    requires forall k :: 0 <= k < |inputs| ==> inputs[k].seen && inputs[k].face && !inputs[k].lowStd
    ensures var r := Run(s, inputs).camera;
            && r.hiStds == s.camera.hiStds + |inputs|
            && (inputs != [] ==> (r.uncertain <==> r.hiStds > 200))
    ensures next.seen && next.face && next.lowStd ==> Step(s, next).camera.hiStds == 0
    ensures !next.seen || !next.face ==> Step(s, next).camera.hiStds == s.camera.hiStds
  {
    hide Attend, EnterLockout, TickLockout, Record, SetPolicy, Level, Filtered;
    if inputs != [] {
      UncertainAfter200(s, inputs[..|inputs| - 1], next);
    }
  }

  /** Which policy a frame leads to, and what becomes of both awareness values. */
  lemma {:induction false} PolicyFollowsCamera(s: State, i: Input)
    requires Good(s) && i.seen
    ensures var a, u := s.attention, UpdateStates(s, i).attention;
            var stays := a.awareness <= if a.policy == Vision then 5.0 / 13.0 else 0.0;
            && u.policy == (if stays then a.policy
                            else if i.face && s.camera.hiStds < 200 then Vision else Wheeltouch)
            && (u.policy == a.policy ==>
                  u.awareness == a.awareness && u.lastVision == a.lastVision && u.lastWheeltouch == a.lastWheeltouch)
            && (u.policy != a.policy && u.policy == Wheeltouch ==>
                  u.awareness == u.lastWheeltouch == a.lastWheeltouch && u.lastVision == a.awareness)
            && (u.policy != a.policy && u.policy == Vision ==>
                  u.awareness == u.lastVision == a.lastVision && u.lastWheeltouch == a.awareness)
  {
    hide Filtered;
  }

  /** Whether awareness may be restored, in the terms of the policy's settings. */
  predicate Restores(a: Attention, c: Camera, i: Input) {
    && 0.0 < a.awareness
    && ((c.filter < 0.37 && c.face && c.lowStd) || (i.lowspeed && a.awareness - a.step <= a.threshold1))
  }

  /** Whether the driver is certainly distracted, or may be. */
  predicate Suspected(c: Camera) { (c.filter > 0.63 && c.distracted && c.face) || c.uncertain || !c.face }

  lemma {:induction false} GainExceedsStep(a: Attention)
    requires GoodAttention(a) && 0.0 < a.awareness < 1.0 && a.step > 0.0
    ensures Recovered(a).awareness == 1.0 || Recovered(a).awareness > a.awareness + a.step
    ensures Recovered(a).step == a.step
  {
    if a.step == VISION_STEP {} else {}
  }

  lemma {:induction false} NoGain(a: Attention)
    requires GoodAttention(a) && (a.awareness == 1.0 || a.step == 0.0)
    ensures Recovered(a).awareness == a.awareness && Recovered(a).step == a.step
  {
    if a.step == VISION_STEP {} else {}
  }

  lemma {:induction false} RestoringAttend(a: Attention, c: Camera, alwaysOn: bool, i: Input)
    requires GoodAttention(a) && i.engaged && !i.interacting && Restores(a, c, i)
    ensures var r := Attend(a, c, alwaysOn, i).attention.awareness;
            r >= a.awareness && (r > a.awareness <==> a.step > 0.0 && a.awareness < 1.0)
  {
    hide Recovered;
    if a.awareness < 1.0 && a.step > 0.0 { GainExceedsStep(a); } else { NoGain(a); }
  }

  lemma {:induction false} OtherAttend(a: Attention, c: Camera, alwaysOn: bool, i: Input)
    requires GoodAttention(a) && i.engaged && !i.interacting && !Restores(a, c, i)
    ensures var r := Attend(a, c, alwaysOn, i).attention.awareness;
            && r <= a.awareness
            && (r < a.awareness <==>
                && a.step > 0.0 && a.awareness > -0.1 && Suspected(c)
                && !(i.lowspeed && a.awareness - a.step <= a.threshold1))
  {
    hide Recovered;
  }

  /** Engaged, without a touch: when awareness rises and when it falls; otherwise it stays what it was. */
  lemma {:induction false} AwarenessMoves(s: State, i: Input)
    requires Good(s) && i.engaged && !i.interacting
    ensures var u, r := UpdateStates(s, i), Step(s, i).attention.awareness;
            var a := u.attention;
            && (r > a.awareness <==> a.step > 0.0 && a.awareness < 1.0 && Restores(a, u.camera, i))
            && (r < a.awareness <==>
                && a.step > 0.0 && a.awareness > -0.1 && Suspected(u.camera) && !Restores(a, u.camera, i)
                && !(i.lowspeed && a.awareness - a.step <= a.threshold1))
  {
    var u := UpdateStates(s, i);
    PolicyKeepsGood(s.attention, Target(Observe(s.camera, i)));
    hide UpdateStates, TickLockout, EnterLockout, Record, Level, Attend, Restores, Suspected, GoodAttention;
    if Restores(u.attention, u.camera, i) {
      RestoringAttend(u.attention, u.camera, u.alwaysOn && !i.wrongGear, i);
    } else {
      OtherAttend(u.attention, u.camera, u.alwaysOn && !i.wrongGear, i);
    }
  }

  // ---------- lockouts ----------

  /** The step's alerts do not touch the lockout itself. */
  lemma {:induction false} LockoutOfStep(s: State, i: Input)
    ensures var l, r := TickLockout(EnterLockout(s.ledger)), Step(s, i).ledger;
            && r.lockout == l.lockout && r.count == l.count && r.duration == l.duration && r.elapsed == l.elapsed
            && (r == l || exists before: real, now: real :: r == Record(l, before, now))
  {
    var u := UpdateStates(s, i);
    assert u.ledger == s.ledger;
    hide Attend, TickLockout, EnterLockout, UpdateStates, Level;
  }

  /** An episode that starts in the run is visible for exactly as many steps as its duration says. */
  lemma {:induction false} EpisodeLasts(s: State, first: Input, inputs: seq<Input>)
    requires Good(s) && !s.ledger.lockout && Step(s, first).ledger.lockout
    requires |inputs| <= Step(s, first).ledger.duration
    ensures var start, now := Step(s, first).ledger, Run(Step(s, first), inputs).ledger;
            && start.count == s.ledger.count + 1
            && start.duration == (if start.count == 1 then 1200 else if start.count == 2 then 6000
                                  else if start.count == 3 then 18000 else 36000)
            && now.count == start.count && now.duration == start.duration
            && (now.lockout <==> |inputs| < start.duration)
            && now.elapsed == if now.lockout then |inputs| + 1 else 0
  {
    var t := Step(s, first);
    LockoutOfStep(s, first);
    if inputs != [] {
      var init, i := inputs[..|inputs| - 1], inputs[|inputs| - 1];
      EpisodeLasts(s, first, init);
      LockoutOfStep(Run(t, init), i);
      hide Step, Good;
    }
  }

  /** The steps of a run on which a lockout begins. */
  function Episodes(s: State, inputs: seq<Input>): nat {
    if inputs == [] then 0
    else
      var init := inputs[..|inputs| - 1];
      Episodes(s, init) + (if !Run(s, init).ledger.lockout && Run(s, inputs).ledger.lockout then 1 else 0)
  }

  lemma {:induction false} CountOfStep(s: State, i: Input)
    requires Good(s)
    ensures var l, r := s.ledger, Step(s, i).ledger;
            && r.count == l.count + (if !l.lockout && r.lockout then 1 else 0)
            && r.duration >= l.duration
  {
    LockoutOfStep(s, i);
    hide Step, GoodAttention;
  }

  /** Each episode raises the count by one, and nothing else does; durations never decrease. */
  lemma {:induction false} CountTellsEpisodes(s: State, inputs: seq<Input>)
    requires Good(s)
    ensures Run(s, inputs).ledger.count == s.ledger.count + Episodes(s, inputs)
    ensures Run(s, inputs).ledger.duration >= s.ledger.duration
  {
    hide Step, Good;
    if inputs != [] {
      var init, i := inputs[..|inputs| - 1], inputs[|inputs| - 1];
      CountTellsEpisodes(s, init);
      RunKeepsGood(s, init);
      CountOfStep(Run(s, init), i);
    }
  }

  /** When a lockout ends, all counters start afresh before the step's alert is judged, and the next step starts
      none. */
  lemma {:induction false} EndingClears(s: State, i: Input, j: Input)
    requires Good(s) && s.ledger.lockout && !Step(s, i).ledger.lockout
    ensures var l, r := Ledger(0, 0, 0, false, s.ledger.count, s.ledger.duration, 0), Step(s, i).ledger;
            r == l || r == l.(alert3Cnt := 1) || r == l.(sinceAlert3 := 1)
    ensures !Step(Step(s, i), j).ledger.lockout
  {
    LockoutOfStep(s, i);
    LockoutOfStep(Step(s, i), j);
    hide Step, GoodAttention;
  }

  /** What one more unanswered step of red does to the ledger. */
  lemma {:induction false} UnansweredStep(l: Ledger, n: nat)
    requires GoodLedger(l) && l.sinceAlert3 == n && l.elapsed <= n < NO_RESPONSE_TIMEOUT
    requires l.lockout ==> l.duration >= 1200
    ensures var r := Record(TickLockout(EnterLockout(l)), 0.0, 0.0);
            && r.sinceAlert3 == n + 1 && r.elapsed <= n + 1
            && (n + 1 == NO_RESPONSE_TIMEOUT ==> LockoutDue(r))
            && (r.lockout ==> r.duration >= 1200)
  {}

  /** The ledger after some steps of red that nobody answers. */
  lemma {:induction false} UnansweredRed(s: State, inputs: seq<Input>)
    requires Good(s) && s.attention.awareness <= 0.0 && s.ledger.sinceAlert3 == 0 && !s.ledger.lockout
    requires |inputs| <= NO_RESPONSE_TIMEOUT && forall k :: 0 <= k < |inputs| ==> inputs[k].engaged
    ensures var l := Run(s, inputs).ledger;
            && l.sinceAlert3 == |inputs| && l.elapsed <= |inputs|
            && (|inputs| == NO_RESPONSE_TIMEOUT ==> LockoutDue(l))
            && (l.lockout ==> l.duration >= 1200)
  {
    if inputs != [] {
      var init, i := inputs[..|inputs| - 1], inputs[|inputs| - 1];
      UnansweredRed(s, init);
      RedIsTerminal(s, init);
      RunKeepsGood(s, init);
      RedStays(Run(s, init), i);
      hide Step, GoodAttention, GoodLedger, EnterLockout, TickLockout, Record;
      UnansweredStep(Run(s, init).ledger, |init|);
    }
  }

  /** A red alert left unanswered for 100 steps locks the driver out on the next one. */
  lemma {:induction false} IgnoredRedLocksOut(s: State, inputs: seq<Input>, next: Input)
    requires Good(s) && s.attention.awareness <= 0.0 && s.ledger.sinceAlert3 == 0 && !s.ledger.lockout
    requires |inputs| == 100 && forall k :: 0 <= k < |inputs| ==> inputs[k].engaged
    ensures Run(s, inputs + [next]).ledger.lockout
  {
    UnansweredRed(s, inputs);
    RunStep(s, inputs, next);
    LockoutOfStep(Run(s, inputs), next);
    RunKeepsGood(s, inputs);
    hide Step, Run, GoodAttention;
  }

  /** How long red has lasted, in steps; a run that starts in red takes over what the ledger has counted. */
  function RedFor(s: State, inputs: seq<Input>): nat {
    if Run(s, inputs).attention.awareness > 0.0 then 0
    else if inputs == [] then s.ledger.sinceAlert3 + 1
    else RedFor(s, inputs[..|inputs| - 1]) + 1
  }

  /** The steps on which red begins. */
  function Entries(s: State, inputs: seq<Input>): nat {
    if inputs == [] then 0
    else Entries(s, inputs[..|inputs| - 1]) + (if RedFor(s, inputs) == 1 then 1 else 0)
  }

  /** The steps on which red has gone unanswered for a hundred steps after the one on which it began. */
  function Ignored(s: State, inputs: seq<Input>): nat {
    if inputs == [] then 0
    else Ignored(s, inputs[..|inputs| - 1]) + (if RedFor(s, inputs) == 101 then 1 else 0)
  }

  ghost predicate NoLockout(s: State, inputs: seq<Input>) {
    forall k :: 0 <= k <= |inputs| ==> !Run(s, inputs[..k]).ledger.lockout
  }

  /** What a step that begins no lockout does to the counters. */
  lemma {:induction false} CountersOfStep(s: State, i: Input)
    requires Good(s) && !s.ledger.lockout && !Step(s, i).ledger.lockout
    ensures var l, r := s.ledger, Step(s, i).ledger;
            if Step(s, i).attention.awareness > 0.0 then
              r.alert3Cnt == l.alert3Cnt && r.noResponseCnt == l.noResponseCnt
            else
              && r.sinceAlert3 == (if s.attention.awareness > 0.0 then 0 else l.sinceAlert3 + 1)
              && r.alert3Cnt == l.alert3Cnt + (if s.attention.awareness > 0.0 then 1 else 0)
              && r.noResponseCnt == l.noResponseCnt + (if r.sinceAlert3 == NO_RESPONSE_TIMEOUT then 1 else 0)
  {
    LockoutOfStep(s, i);
    RedIsJudged(s, i);
    hide Attend, UpdateStates, Level, GoodAttention;
  }

  lemma {:induction false} RedIsJudged(s: State, i: Input)
    requires Good(s)
    ensures var u := UpdateStates(s, i);
            var v := Attend(u.attention, u.camera, u.alwaysOn && !i.wrongGear, i);
            && u.ledger == s.ledger
            && (u.attention.awareness > 0.0 <==> s.attention.awareness > 0.0)
            && (v.attention.awareness <= 0.0 ==> v.judged)
  {
    hide TickLockout, EnterLockout, Record, Level;
  }

  lemma {:induction false} CountersTell(s: State, inputs: seq<Input>)
    requires Good(s) && NoLockout(s, inputs)
    ensures var r := Run(s, inputs);
            && r.ledger.alert3Cnt == s.ledger.alert3Cnt + Entries(s, inputs)
            && r.ledger.noResponseCnt == s.ledger.noResponseCnt + Ignored(s, inputs)
            && (r.attention.awareness <= 0.0 ==> r.ledger.sinceAlert3 + 1 == RedFor(s, inputs))
  {
    hide Step, Good;
    if inputs != [] {
      var n := |inputs| - 1;
      var init := inputs[..n];
      assert forall k :: 0 <= k <= n ==> init[..k] == inputs[..k];
      CountersTell(s, init);
      RunKeepsGood(s, init);
      assert inputs[..n + 1] == inputs;
      CountersOfStep(Run(s, init), inputs[n]);
    }
  }

  lemma {:induction false} LockoutBeginsWhenDue(s: State, i: Input)
    requires Good(s) && !s.ledger.lockout
    ensures Step(s, i).ledger.lockout <==> LockoutDue(s.ledger)
  {
    LockoutOfStep(s, i);
    hide Step, GoodAttention;
  }

  /**
   * A lockout begins on a step if and only if red has begun for the second time, or has gone unanswered for a hundred
   * steps, since counting started; the counters start afresh when a lockout ends.
   */
  lemma {:induction false} LockoutBeginsExactly(s: State, inputs: seq<Input>, next: Input)
    requires Good(s) && NoLockout(s, inputs)
    ensures Run(s, inputs + [next]).ledger.lockout <==>
              s.ledger.alert3Cnt + Entries(s, inputs) >= 2 || s.ledger.noResponseCnt + Ignored(s, inputs) >= 1
  {
    CountersTell(s, inputs);
    RunStep(s, inputs, next);
    RunKeepsGood(s, inputs);
    assert inputs[..|inputs|] == inputs;
    LockoutBeginsWhenDue(Run(s, inputs), next);
    hide Step, Run, Good, Entries, Ignored;
  }

  /** From start-up without a saved lockout the first one begins exactly when red has begun twice or was ignored. */
  lemma {:induction false} FirstLockout(alwaysOn: bool, savedCount: nat, inputs: seq<Input>, next: Input)
    requires NoLockout(Initial(alwaysOn, false, savedCount), inputs)
    ensures var s := Initial(alwaysOn, false, savedCount);
            Run(s, inputs + [next]).ledger.lockout <==> Entries(s, inputs) >= 2 || Ignored(s, inputs) >= 1
  {
    InitialIsGood(alwaysOn, false, savedCount);
    LockoutBeginsExactly(Initial(alwaysOn, false, savedCount), inputs, next);
    hide Run, Entries, Ignored, Good;
  }

  /** A lockout saved before a restart is served in full: as many steps as its number calls for. */
  lemma {:induction false} SavedLockoutLasts(alwaysOn: bool, savedCount: nat, inputs: seq<Input>)
    requires savedCount >= 1
    requires var times := [1200, 6000, 18000, 36000];
             |inputs| <= times[if savedCount <= 4 then savedCount - 1 else 3] + 1
    ensures var times, r := [1200, 6000, 18000, 36000], Run(Initial(alwaysOn, true, savedCount), inputs).ledger;
            && r.count == savedCount
            && (r.lockout <==> |inputs| <= times[if savedCount <= 4 then savedCount - 1 else 3])
            && (r.lockout ==> r.elapsed == |inputs| && r.duration == LockoutTime(savedCount))
  {
    var s := Initial(alwaysOn, true, savedCount);
    if inputs != [] {
      var init, i := inputs[..|inputs| - 1], inputs[|inputs| - 1];
      SavedLockoutLasts(alwaysOn, savedCount, init);
      LockoutOfStep(Run(s, init), i);
      hide Step, Initial;
    }
  }

  // ---------- the monitor ----------

  /** The monitor; its fields are kept in three records, one for each thing they are about. */
  class Monitor {
    var camera: Camera
    var attention: Attention
    var ledger: Ledger
    var alert: AlertLevel
    var interacting: bool
    const alwaysOn: bool

    ghost function Now(): State
      reads this
    {
      State(camera, attention, ledger, alert, alwaysOn)
    }

    constructor (savedLockout: bool, savedCount: nat, alwaysOn: bool)
      ensures Now() == Initial(alwaysOn, savedLockout, savedCount)
    {
      this.alwaysOn := alwaysOn;
      alert, interacting := None, false;
      camera := Camera(false, true, false, 0.0, 0, false);
      ledger := Ledger(0, 0, 0, savedLockout, savedCount, LockoutTime(savedCount), 0);
      attention := Attention(0.0, 0.0, 0.0, Vision, 0.0, 0.0, 0.0);
      new;
      DoResetAwareness();
      DoSetPolicy(Vision);
    }

    method DoResetAwareness()
      modifies `attention
      ensures attention == ResetAwareness(old(attention))
    {
      attention := attention.(awareness := 1.0);
      attention := attention.(lastVision := 1.0);
      attention := attention.(lastWheeltouch := 1.0);
    }

    method DoSetPolicy(target: Policy)
      modifies `attention
      ensures attention == SetPolicy(old(attention), target)
    {
      if attention.policy == Vision && attention.awareness <= attention.threshold2 {
        attention := attention.(step := if target == Vision then VISION_STEP else 0.0);
        return;
      } else if attention.awareness <= 0.0 {
        return;
      }
      if target == Vision {
        if attention.policy != Vision {
          attention := attention.(lastWheeltouch := attention.awareness);
          attention := attention.(awareness := attention.lastVision);
        }
        attention := attention.(threshold1 := VISION_ALERT_1);
        attention := attention.(threshold2 := VISION_ALERT_2);
        attention := attention.(step := VISION_STEP);
        attention := attention.(policy := Vision);
      } else {
        if attention.policy == Vision {
          attention := attention.(lastVision := attention.awareness);
          attention := attention.(awareness := attention.lastWheeltouch);
        }
        attention := attention.(threshold1 := WHEELTOUCH_ALERT_1);
        attention := attention.(threshold2 := WHEELTOUCH_ALERT_2);
        attention := attention.(step := WHEELTOUCH_STEP);
        attention := attention.(policy := Wheeltouch);
      }
    }

    method DoUpdateStates(i: Input)
      modifies `camera, `attention
      ensures Now() == UpdateStates(old(Now()), i)
    {
      hide SetPolicy;
      if !i.seen { return; }
      camera := camera.(face := i.face, lowStd := i.lowStd);
      camera := camera.(distracted := i.inattentive && camera.face && camera.lowStd);
      camera := camera.(filter := (1.0 - FILTER_ALPHA) * camera.filter
                                  + FILTER_ALPHA * (if camera.distracted then 1.0 else 0.0));
      camera := camera.(uncertain := camera.hiStds >= HI_STD_FALLBACK_TIME);
      DoSetPolicy(if camera.face && !camera.uncertain then Vision else Wheeltouch);
      if camera.face && !camera.lowStd && !camera.distracted {
        camera := camera.(hiStds := camera.hiStds + 1);
      } else if camera.face && camera.lowStd {
        camera := camera.(hiStds := 0);
      }
    }

    method UpdateLockout()
      modifies `ledger
      ensures ledger == TickLockout(EnterLockout(old(ledger)))
    {
      if ledger.alert3Cnt >= MAX_ALERT_3 || ledger.noResponseCnt >= MAX_NO_RESPONSE {
        if !ledger.lockout {
          ledger := ledger.(count := ledger.count + 1);
          ledger := ledger.(duration := LockoutTime(ledger.count));
        }
        ledger := ledger.(lockout := true);
      }
      if ledger.lockout {
        ledger := ledger.(elapsed := ledger.elapsed + 1);
        if ledger.elapsed > ledger.duration {
          ledger := ledger.(lockout := false, alert3Cnt := 0, sinceAlert3 := 0, noResponseCnt := 0, elapsed := 0);
        }
      }
    }

    /** Gives back awareness, the more of it the less there is. */
    method RestoreAwareness()
      modifies `attention
      ensures attention == Recovered(old(attention))
    {
      var gain := ((RECOVERY_FACTOR_MAX - RECOVERY_FACTOR_MIN) * (1.0 - attention.awareness) + RECOVERY_FACTOR_MIN)
                  * attention.step;
      attention := attention.(awareness := Min(attention.awareness + gain, 1.0));
      if attention.awareness == 1.0 {
        attention := attention.(lastWheeltouch := Min(attention.lastWheeltouch + attention.step, 1.0));
      }
    }

    /** Updates awareness; returns whether the alert is to be judged by it. */
    method DoAttend(alwaysOnValid: bool, i: Input) returns (judged: bool)
      modifies `attention
      ensures Verdict(attention, judged) == Attend(old(attention), camera, alwaysOnValid, i)
    {
      RecoveredKeeps(attention);
      hide Recovered;
      if (i.interacting && attention.awareness > 0.0 && attention.policy == Wheeltouch) ||
         (!alwaysOnValid && !i.engaged) ||
         (alwaysOnValid && !i.engaged && attention.awareness <= 0.0) {
        DoResetAwareness();
        return false;
      }

      var reachingAlert1 := attention.awareness - attention.step <= attention.threshold1;
      var reachingAlert3 := attention.awareness - attention.step <= 0.0;
      var lowspeedExemption := i.lowspeed && reachingAlert1;
      var alwaysOnExemption := alwaysOnValid && !i.engaged && reachingAlert3;

      if attention.awareness > 0.0 &&
         ((camera.filter < 0.37 && camera.face && camera.lowStd) || lowspeedExemption) {
        if i.interacting {
          DoResetAwareness();
          return false;
        }
        RestoreAwareness();
        if attention.awareness > attention.threshold2 { return false; }
      }

      var certainlyDistracted := camera.filter > 0.63 && camera.distracted && camera.face;
      var maybeDistracted := camera.uncertain || !camera.face;
      if certainlyDistracted || maybeDistracted {
        if !(lowspeedExemption || alwaysOnExemption) {
          attention := attention.(awareness := Max(attention.awareness - attention.step, -0.1));
        }
      }
      return true;
    }

    /** Raises the alert the awareness calls for and keeps the counters. */
    method RaiseAlert(awarenessPrev: real)
      requires alert == None
      modifies `alert, `ledger
      ensures alert == Level(attention) && ledger == Record(old(ledger), awarenessPrev, attention.awareness)
    {
      if attention.awareness <= 0.0 {
        alert := Three;
        if awarenessPrev > 0.0 {
          ledger := ledger.(alert3Cnt := ledger.alert3Cnt + 1);
          ledger := ledger.(sinceAlert3 := 0);
        } else {
          ledger := ledger.(sinceAlert3 := ledger.sinceAlert3 + 1);
        }
        if ledger.sinceAlert3 == NO_RESPONSE_TIMEOUT {
          ledger := ledger.(noResponseCnt := ledger.noResponseCnt + 1);
        }
      } else {
        if attention.awareness <= attention.threshold2 {
          alert := Two;
        } else if attention.awareness <= attention.threshold1 {
          alert := One;
        }
      }
    }

    method DoUpdateEvents(i: Input)
      modifies this
      ensures Now() == UpdateEvents(old(Now()), i)
      ensures interacting == i.interacting
    {
      hide TickLockout, EnterLockout, Attend, Level, Record;
      alert := None;
      interacting := i.interacting;
      UpdateLockout();
      var awarenessPrev := attention.awareness;
      var judged := DoAttend(alwaysOn && !i.wrongGear, i);
      if judged { RaiseAlert(awarenessPrev); }
    }

    method RunStep(i: Input)
      modifies this
      ensures Now() == Step(old(Now()), i)
      ensures Good(old(Now())) ==> Good(Now())
    {
      hide UpdateStates, UpdateEvents, Good;
      ghost var before := Now();
      DoUpdateStates(i);
      DoUpdateEvents(i);
      if Good(before) { StepKeepsGood(before, i); }
    }
  }
}
