/** Alert sounds: one-shot and looped playback through callbacks of any size. */
module AlertSounds {
  import opened Arith
  import opened Wrappers

  type Alert = nat

  const NONE: Alert := 0

  /** The samples of a sound, and how often it is played; without a number it loops. */
  datatype Sound = Sound(data: seq<real>, plays: Option<nat>)

  /** The sounds, and the alerts that are heard even in quiet mode. */
  datatype Config = Config(sounds: map<Alert, Sound>, always: set<Alert>, quiet: bool)

  datatype State = State(alert: Alert, frame: nat, pendingStop: bool)

  predicate Valid(c: Config) {
    NONE !in c.sounds && NONE !in c.always && forall a :: a in c.sounds ==> c.sounds[a].data != []
  }

  predicate Fits(c: Config, s: State) { Valid(c) && (s.alert == NONE || s.alert in c.sounds) }

  predicate ShouldPlay(c: Config, alert: Alert) { if c.quiet then alert in c.always else alert != NONE }

  // ---------- one sample at a time ----------

  predicate Exhausted(sound: Sound, frame: nat)
    requires sound.data != []
  {
    sound.plays.Some? && frame / |sound.data| >= sound.plays.value
  }

  /** The next sample of the current alert, if it has one. */
  function Sample(c: Config, s: State): Option<real>
    requires Fits(c, s)
  {
    if !ShouldPlay(c, s.alert) || s.alert == NONE || Exhausted(c.sounds[s.alert], s.frame) then None
    else Some(c.sounds[s.alert].data[s.frame % |c.sounds[s.alert].data|])
  }

  /** The state after one sample; a pending stop takes effect at the end of a loop. */
  function Tick(c: Config, s: State): (r: State)
    requires Fits(c, s)
    ensures Fits(c, r)
  {
    if Sample(c, s).None? then s
    else if s.pendingStop && (s.frame + 1) % |c.sounds[s.alert].data| == 0 then State(NONE, s.frame + 1, false)
    else s.(frame := s.frame + 1)
  }

  function Ticks(c: Config, s: State, n: nat): (r: State)
    requires Fits(c, s)
    ensures Fits(c, r)
  {
    if n == 0 then s else Tick(c, Ticks(c, s, n - 1))
  }

  function Audible(x: Option<real>): real { if x.Some? then x.value else 0.0 }

  /** The samples heard over n frames, silence where there are none. */
  function Heard(c: Config, s: State, n: nat): (out: seq<real>)
    requires Fits(c, s)
    ensures |out| == n
  {
    if n == 0 then [] else Heard(c, s, n - 1) + [Audible(Sample(c, Ticks(c, s, n - 1)))]
  }

  lemma {:induction false} TicksAdd(c: Config, s: State, m: nat, n: nat)
    requires Fits(c, s)
    ensures Ticks(c, s, m + n) == Ticks(c, Ticks(c, s, m), n)
    ensures Heard(c, s, m + n) == Heard(c, s, m) + Heard(c, Ticks(c, s, m), n)
  {
    if n > 0 {
      TicksAdd(c, s, m, n - 1);
    }
  }

  // ---------- copying whole stretches ----------

  predicate StopsAfter(c: Config, s: State, n: nat)
    requires s.alert in c.sounds && c.sounds[s.alert].data != []
  {
    n > 0 && s.pendingStop && s.frame % |c.sounds[s.alert].data| + n == |c.sounds[s.alert].data|
  }

  /** One more sample of a stretch that stays within one loop. */
  lemma {:induction false} StretchStep(c: Config, s: State, n: nat)
    requires Fits(c, s) && Sample(c, s).Some? && s.alert in c.sounds && c.sounds[s.alert].data != []
    requires s.frame % |c.sounds[s.alert].data| + n < |c.sounds[s.alert].data|
    ensures var data, t := c.sounds[s.alert].data, s.(frame := s.frame + n);
            && Fits(c, t) && Sample(c, t) == Some(data[s.frame % |data| + n])
            && Tick(c, t) == if StopsAfter(c, s, n + 1) then State(NONE, s.frame + n + 1, false)
                else s.(frame := s.frame + n + 1)
  {
    var data := c.sounds[s.alert].data;
    Position(s.frame, |data|, n);
    NextPosition(s.frame + n, |data|);
  }

  /** From frame on, a stretch that stays within one loop is heard as it stands in the sound. */
  lemma {:induction false} StretchIsHeard(c: Config, s: State, n: nat)
    requires Fits(c, s) && Sample(c, s).Some? && s.alert in c.sounds && c.sounds[s.alert].data != []
    requires s.frame % |c.sounds[s.alert].data| + n <= |c.sounds[s.alert].data|
    ensures var data := c.sounds[s.alert].data;
            && Heard(c, s, n) == data[s.frame % |data|..s.frame % |data| + n]
            && Ticks(c, s, n) == if StopsAfter(c, s, n) then State(NONE, s.frame + n, false)
                else s.(frame := s.frame + n)
  {
    hide Sample, Tick, Valid;
    if n > 0 {
      StretchIsHeard(c, s, n - 1);
      StretchStep(c, s, n - 1);
      NotYet(c, s, n - 1);
      Extend(c.sounds[s.alert].data, s.frame % |c.sounds[s.alert].data|, n - 1);
    }
  }

  lemma {:induction false} NotYet(c: Config, s: State, n: nat)
    requires s.alert in c.sounds && c.sounds[s.alert].data != []
    requires s.frame % |c.sounds[s.alert].data| + n < |c.sounds[s.alert].data|
    ensures !StopsAfter(c, s, n)
  {}

  lemma {:induction false} Extend(data: seq<real>, at: nat, n: nat)
    requires at + n < |data|
    ensures data[at..at + n + 1] == data[at..at + n] + [data[at + n]]
  {}

  /** Moving on within a loop. */
  lemma {:induction false} Position(frame: nat, len: nat, n: nat)
    requires len > 0 && frame % len + n < len
    ensures (frame + n) % len == frame % len + n && (frame + n) / len == frame / len
  {
    var q, r := frame / len, frame % len;
    assert frame == q * len + r;
    DivUnique(frame + n, len, q, r + n);
  }

  lemma {:induction false} NextPosition(frame: nat, len: nat)
    requires len > 0
    ensures (frame + 1) % len == if frame % len + 1 == len then 0 else frame % len + 1
  {
    var q, r := frame / len, frame % len;
    assert frame == q * len + r;
    if r + 1 == len {
      assert frame + 1 == (q + 1) * len;
      DivUnique(frame + 1, len, q + 1, 0);
    } else {
      DivUnique(frame + 1, len, q, r + 1);
    }
  }

  lemma {:induction false} SilenceIsHeard(c: Config, s: State, n: nat)
    requires Fits(c, s) && Sample(c, s).None?
    ensures Ticks(c, s, n) == s && forall k :: 0 <= k < n ==> Heard(c, s, n)[k] == 0.0
  {
    if n > 0 { SilenceIsHeard(c, s, n - 1); }
  }

  function Silence(n: nat): (s: seq<real>)
    ensures |s| == n
  {
    seq(n, k => 0.0)
  }

  /** What is heard next, in terms of where the current frame stands in its loop. */
  lemma {:induction false} SampleIs(c: Config, s: State)
    requires Fits(c, s)
    ensures !ShouldPlay(c, s.alert) || s.alert == NONE ==> Sample(c, s).None?
    ensures ShouldPlay(c, s.alert) && s.alert != NONE ==>
              && s.alert in c.sounds && c.sounds[s.alert].data != []
              && var sound := c.sounds[s.alert];
                 Sample(c, s).Some? <==> sound.plays.None? || s.frame / |sound.data| < sound.plays.value
  {}

  lemma {:induction false} PlayedIsKnown(c: Config, s: State)
    requires Fits(c, s) && ShouldPlay(c, s.alert)
    ensures s.alert != NONE && s.alert in c.sounds && c.sounds[s.alert].data != []
  {}

  lemma {:induction false} NothingHeard(c: Config, s: State)
    requires Fits(c, s)
    ensures Ticks(c, s, 0) == s && Heard(c, s, 0) == []
  {}

  /** After a stretch the frame stands at the start of a loop exactly if the stretch ended one. */
  lemma {:induction false} PositionAfter(frame: nat, len: nat, n: nat)
    requires len > 0 && 0 < n && frame % len + n <= len
    ensures (frame + n) % len == 0 <==> frame % len + n == len
  {
    Position(frame, len, n - 1);
    NextPosition(frame + (n - 1), len);
  }

  /** The buffer and the state after `written` of `frames` samples. */
  ghost predicate Playing(c: Config, s: State, written: nat, frames: nat, samples: seq<real>, now: State) {
    && Fits(c, s) && written <= frames
    && samples == Heard(c, s, written) + Silence(frames - written)
    && now == Ticks(c, s, written)
  }

  lemma {:induction false} PlayStarts(c: Config, s: State, frames: nat)
    requires Fits(c, s)
    ensures Playing(c, s, 0, frames, Silence(frames), s)
  {
    NothingHeard(c, s);
    assert [] + Silence(frames) == Silence(frames);
  }

  lemma {:induction false} PlayingFits(c: Config, s: State, written: nat, frames: nat, samples: seq<real>, now: State)
    requires Playing(c, s, written, frames, samples, now)
    ensures Fits(c, now) && |samples| == frames && written <= frames
  {
    hide Ticks, Heard, Fits;
  }

  lemma {:induction false} FillMore(heard: seq<real>, left: nat, stretch: seq<real>)
    requires |stretch| <= left
    ensures Overwritten(heard + Silence(left), |heard|, stretch) == (heard + stretch) + Silence(left - |stretch|)
  {}

  /** One round of the playing loop. */
  lemma {:induction false} PlayRound(c: Config, s: State, written: nat, frames: nat, samples: seq<real>,
      now: State, n: nat)
    requires Playing(c, s, written, frames, samples, now) && Fits(c, now) && |samples| == frames
    requires Sample(c, now).Some? && now.alert in c.sounds && c.sounds[now.alert].data != []
    requires 0 < n <= frames - written && now.frame % |c.sounds[now.alert].data| + n <= |c.sounds[now.alert].data|
    ensures var data := c.sounds[now.alert].data;
            var at := now.frame % |data|;
            && ((now.frame + n) % |data| == 0 <==> at + n == |data|)
            && Playing(c, s, written + n, frames, Overwritten(samples, written, data[at..at + n]),
                       if now.pendingStop && at + n == |data| then State(NONE, now.frame + n, false)
                       else now.(frame := now.frame + n))
  {
    hide Ticks, Heard, Sample, Overwritten;
    var data := c.sounds[now.alert].data;
    PositionAfter(now.frame, |data|, n);
    StretchIsHeard(c, now, n);
    TicksAdd(c, s, written, n);
    FillMore(Heard(c, s, written), frames - written, data[now.frame % |data|..now.frame % |data| + n]);
  }

  lemma {:induction false} PlayEnds(c: Config, s: State, written: nat, frames: nat, samples: seq<real>, now: State)
    requires Playing(c, s, written, frames, samples, now) && Fits(c, now)
    requires written == frames || Sample(c, now).None?
    ensures samples == Heard(c, s, frames) && now == Ticks(c, s, frames)
  {
    hide Ticks, Heard, Sample;
    var left := frames - written;
    TicksAdd(c, s, written, left);
    if left > 0 {
      SilenceIsHeard(c, now, left);
      assert Heard(c, now, left) == Silence(left);
    } else {
      NothingHeard(c, now);
    }
  }

  // ---------- changing the alert ----------

  predicate PlayedOnce(c: Config, s: State)
    requires Fits(c, s)
  {
    s.alert == NONE || s.frame >= |c.sounds[s.alert].data|
  }

  /** A looping sound is left to finish its loop; a one-shot sound only gives way to another one before its end. */
  function UpdateAlert(c: Config, s: State, alert: Alert): (r: State)
    requires Fits(c, s) && (alert == NONE || alert in c.sounds)
    ensures Fits(c, r)
  {
    if alert == NONE && s.alert != NONE && c.sounds[s.alert].plays.None? then
      if PlayedOnce(c, s) then s.(pendingStop := true) else State(NONE, 0, s.pendingStop)
    else if s.alert != alert && (alert != NONE || PlayedOnce(c, s)) then State(alert, 0, false)
    else s.(pendingStop := false)
  }

  /** A callback that plays some frames, or a change of the alert. */
  datatype Event = Callback(frames: nat) | Update(alert: Alert)

  predicate Known(c: Config, events: seq<Event>) {
    forall k :: 0 <= k < |events| && events[k].Update? ==> events[k].alert == NONE || events[k].alert in c.sounds
  }

  function After(c: Config, s: State, events: seq<Event>): (r: State)
    requires Fits(c, s) && Known(c, events)
    ensures Fits(c, r)
  {
    if events == [] then s
    else
      var t := After(c, s, events[..|events| - 1]);
      match events[|events| - 1]
      case Callback(n) => Ticks(c, t, n)
      case Update(a) => UpdateAlert(c, t, a)
  }

  function AllHeard(c: Config, s: State, events: seq<Event>): seq<real>
    requires Fits(c, s) && Known(c, events)
  {
    if events == [] then []
    else
      var init, t := AllHeard(c, s, events[..|events| - 1]), After(c, s, events[..|events| - 1]);
      match events[|events| - 1]
      case Callback(n) => init + Heard(c, t, n)
      case Update(_) => init
  }

  /** Cutting a callback in two changes neither what is heard nor the state after it. */
  lemma {:induction false} CallbackSizesDoNotMatter(c: Config, s: State, events: seq<Event>, m: nat, n: nat)
    requires Fits(c, s) && Known(c, events)
    ensures var one, two := events + [Callback(m + n)], events + [Callback(m), Callback(n)];
            && Known(c, one) && Known(c, two)
            && After(c, s, one) == After(c, s, two) && AllHeard(c, s, one) == AllHeard(c, s, two)
  {
    hide Ticks, Heard, UpdateAlert, Valid;
    var one, half, two := events + [Callback(m + n)], events + [Callback(m)], events + [Callback(m), Callback(n)];
    assert one[..|events|] == events && half[..|events|] == events && two[..|half|] == half;
    assert Known(c, half);
    TicksAdd(c, After(c, s, events), m, n);
    assert AllHeard(c, s, half) == AllHeard(c, s, events) + Heard(c, After(c, s, events), m);
  }

  /** An alert that is not to be heard is silent, and its sound does not advance. */
  lemma {:induction false} QuietIsSilent(c: Config, s: State, n: nat)
    requires Fits(c, s)
    requires if c.quiet then s.alert !in c.always else s.alert == NONE
    ensures Heard(c, s, n) == Silence(n) && Ticks(c, s, n) == s
  {
    SilenceIsHeard(c, s, n);
  }

  /** A new alert that is to be heard starts at once, from the beginning of its sound. */
  lemma {:induction false} NewAlertIsHeard(c: Config, s: State, alert: Alert, n: nat)
    requires Fits(c, s) && alert in c.sounds && s.alert != alert
    requires !c.quiet || alert in c.always
    requires c.sounds[alert].plays != Some(0) && n <= |c.sounds[alert].data|
    ensures Heard(c, UpdateAlert(c, s, alert), n) == c.sounds[alert].data[..n]
  {
    NewAlertStarts(c, s, alert);
    hide *;
    if n > 0 {
      StretchIsHeard(c, State(alert, 0, false), n);
    } else {
      NothingHeard(c, State(alert, 0, false));
    }
  }

  lemma {:induction false} NewAlertStarts(c: Config, s: State, alert: Alert)
    requires Fits(c, s) && alert in c.sounds && s.alert != alert
    requires (!c.quiet || alert in c.always) && c.sounds[alert].plays != Some(0)
    ensures var t := State(alert, 0, false);
            && UpdateAlert(c, s, alert) == t && Fits(c, t) && c.sounds[alert].data != []
            && Sample(c, t).Some? && t.frame % |c.sounds[alert].data| == 0
  {}

  /** Told to stop before it has been heard once, a looping sound is silent at once. */
  lemma {:induction false} EarlyStopIsSilent(c: Config, s: State, n: nat)
    requires Fits(c, s) && s.alert in c.sounds && c.sounds[s.alert].plays.None?
    requires s.frame < |c.sounds[s.alert].data|
    ensures Heard(c, UpdateAlert(c, s, NONE), n) == Silence(n)
  {
    SilenceIsHeard(c, UpdateAlert(c, s, NONE), n);
  }

  /** The current alert asked for again goes on where it is; a pending stop is called off. */
  lemma {:induction false} RepeatContinues(c: Config, s: State)
    requires Fits(c, s) && s.alert in c.sounds
    ensures UpdateAlert(c, s, s.alert) == State(s.alert, s.frame, false)
  {}

  /** A one-shot sound that was heard, taken back and raised again is played again from the beginning. */
  lemma {:induction false} RaisedAgainIsHeardAgain(c: Config, s: State, n: nat)
    requires Fits(c, s) && s.alert in c.sounds && c.sounds[s.alert].plays.Some? && c.sounds[s.alert].plays != Some(0)
    requires s.frame >= |c.sounds[s.alert].data| >= n && (!c.quiet || s.alert in c.always)
    ensures Heard(c, UpdateAlert(c, UpdateAlert(c, s, NONE), s.alert), n) == c.sounds[s.alert].data[..n]
  {
    NewAlertIsHeard(c, UpdateAlert(c, s, NONE), s.alert, n);
  }

  /** Told to stop, a looping sound that has been heard once plays to the end of its loop, and then there is silence. */
  lemma {:induction false} LoopIsFinished(c: Config, s: State, n: nat)
    requires Fits(c, s) && s.alert in c.sounds && c.sounds[s.alert].plays.None? && ShouldPlay(c, s.alert)
    requires s.frame >= |c.sounds[s.alert].data|
    ensures c.sounds[s.alert].data != []
    ensures var data, t := c.sounds[s.alert].data, UpdateAlert(c, s, NONE);
            var at := s.frame % |data|;
            && Heard(c, t, |data| - at + n) == data[at..] + Silence(n)
            && Ticks(c, t, |data| - at + n) == State(NONE, s.frame + |data| - at, false)
  {
    hide Ticks, Heard;
    var data, t := c.sounds[s.alert].data, UpdateAlert(c, s, NONE);
    var at := s.frame % |data|;
    SampleIs(c, t);
    StretchIsHeard(c, t, |data| - at);
    TicksAdd(c, t, |data| - at, n);
    var r := Ticks(c, t, |data| - at);
    SampleIs(c, r);
    SilenceIsHeard(c, r, n);
    assert Heard(c, r, n) == Silence(n);
    assert data[at..at + (|data| - at)] == data[at..];
  }

  // ---------- one-shot sounds ----------

  /** The first n frames of a sound that is played once. */
  function Once(data: seq<real>, n: nat): seq<real> { data[..Least(n, |data|)] + Silence(n - Least(n, |data|)) }

  predicate OneShot(c: Config, alert: Alert) {
    Valid(c) && alert in c.sounds && c.sounds[alert].plays == Some(1) && ShouldPlay(c, alert)
  }

  lemma {:induction false} OneShotSample(c: Config, alert: Alert, frame: nat)
    requires OneShot(c, alert) && frame <= |c.sounds[alert].data|
    ensures var data, s := c.sounds[alert].data, State(alert, frame, false);
            && Fits(c, s) && data != []
            && Sample(c, s) == (if frame < |data| then Some(data[frame]) else None)
            && Tick(c, s) == State(alert, Least(frame + 1, |data|), false)
  {
    var data := c.sounds[alert].data;
    if frame < |data| {
      DivUnique(frame, |data|, 0, frame);
    } else {
      DivUnique(frame, |data|, 1, 0);
    }
  }

  lemma {:induction false} OnceGrows(data: seq<real>, n: nat)
    ensures Once(data, n + 1) == Once(data, n) + [if n < |data| then data[n] else 0.0]
  {}

  /** One frame of a one-shot sound after m frames. */
  lemma {:induction false} OneShotFrame(c: Config, alert: Alert, m: nat)
    requires OneShot(c, alert)
    ensures var data := c.sounds[alert].data;
            var s := State(alert, Least(m, |data|), false);
            && Fits(c, s) && Tick(c, s) == State(alert, Least(m + 1, |data|), false)
            && Once(data, m) + [Audible(Sample(c, s))] == Once(data, m + 1)
  {
    hide Sample, Tick, Once, Valid, Fits, ShouldPlay;
    OneShotSample(c, alert, Least(m, |c.sounds[alert].data|));
    OnceGrows(c.sounds[alert].data, m);
  }

  lemma {:induction false} OneShotTicks(c: Config, alert: Alert, done: nat, n: nat)
    requires OneShot(c, alert)
    ensures var data := c.sounds[alert].data;
            var s := State(alert, Least(done, |data|), false);
            && Fits(c, s)
            && Ticks(c, s, n) == State(alert, Least(done + n, |data|), false)
            && Once(data, done) + Heard(c, s, n) == Once(data, done + n)
  {
    hide Sample, Tick, Once, Valid, Fits, ShouldPlay, Least, Audible, Heard, Ticks;
    var data := c.sounds[alert].data;
    var s := State(alert, Least(done, |data|), false);
    OneShotFrame(c, alert, done);
    if n == 0 {
      NothingHeard(c, s);
      assert Once(data, done) + [] == Once(data, done);
    } else {
      OneShotTicks(c, alert, done, n - 1);
      OneShotFrame(c, alert, done + (n - 1));
      LastHeard(c, s, n);
      Joined(Once(data, done), Heard(c, s, n - 1), Audible(Sample(c, Ticks(c, s, n - 1))));
    }
  }

  lemma {:induction false} LastHeard(c: Config, s: State, n: nat)
    requires Fits(c, s) && n > 0
    ensures Heard(c, s, n) == Heard(c, s, n - 1) + [Audible(Sample(c, Ticks(c, s, n - 1)))]
    ensures Ticks(c, s, n) == Tick(c, Ticks(c, s, n - 1))
  {}

  lemma {:induction false} Joined(a: seq<real>, b: seq<real>, x: real)
    ensures a + (b + [x]) == (a + b) + [x]
  {}

  predicate OnlyStops(events: seq<Event>) {
    forall k :: 0 <= k < |events| && events[k].Update? ==> events[k].alert == NONE
  }

  /** A one-shot sound plays out in full, once, however early and often the alert is taken back. */
  lemma {:induction false} OneShotPlaysOut(c: Config, alert: Alert, events: seq<Event>)
    requires OneShot(c, alert) && OnlyStops(events)
    ensures Known(c, events) && Fits(c, State(alert, 0, false))
    ensures var data, s := c.sounds[alert].data, State(alert, 0, false);
            var heard, r := AllHeard(c, s, events), After(c, s, events);
            && heard == Once(data, |heard|)
            && (r == State(alert, Least(|heard|, |data|), false) || (|heard| >= |data| && r == State(NONE, 0, false)))
  {
    var data, s := c.sounds[alert].data, State(alert, 0, false);
    if events != [] {
      var init := events[..|events| - 1];
      OneShotPlaysOut(c, alert, init);
      var heard, r := AllHeard(c, s, init), After(c, s, init);
      match events[|events| - 1]
      case Callback(n) =>
        if r.alert == NONE {
          SampleIs(c, r);
          SilenceIsHeard(c, r, n);
          SilentOnce(data, |heard|, Heard(c, r, n));
        } else {
          OneShotTicks(c, alert, |heard|, n);
        }
      case Update(a) =>
    }
  }

  lemma {:induction false} SilentOnce(data: seq<real>, n: nat, silence: seq<real>)
    requires n >= |data| && forall k :: 0 <= k < |silence| ==> silence[k] == 0.0
    ensures Once(data, n) + silence == Once(data, n + |silence|)
  {}

  // ---------- the player ----------

  class Player {
    const config: Config
    var currentAlert: Alert
    var currentSoundFrame: nat
    var pendingStop: bool

    ghost function Now(): State
      reads this
    {
      State(currentAlert, currentSoundFrame, pendingStop)
    }

    constructor (config: Config)
      requires Valid(config)
      ensures this.config == config && Now() == State(NONE, 0, false) && Fits(config, Now())
    {
      this.config := config;
      currentAlert, currentSoundFrame, pendingStop := NONE, 0, false;
    }

    /** The next frames of the current alert, copied loop by loop, silence after its end. */
    method GetSoundData(frames: nat) returns (out: array<real>)
      requires Fits(config, Now())
      modifies this
      ensures fresh(out) && out[..] == Heard(config, old(Now()), frames)
      ensures Now() == Ticks(config, old(Now()), frames) && Fits(config, Now())
    {
      hide *;
      NowIs();
      ghost var s := Now();
      out := new real[frames](k => 0.0);
      var written := 0;
      assert out[..] == Silence(frames) by { SilenceAt(frames); }
      PlayStarts(config, s, frames);
      var plays := Plays();
      SampleIs(config, s);
      if plays {
        PlayedIsKnown(config, s);
        ghost var alert := currentAlert;
        var sound := config.sounds[currentAlert];
        var len := |sound.data|;
        var at, loops := currentSoundFrame % len, currentSoundFrame / len;
        while written < frames && (sound.plays.None? || loops < sound.plays.value)
          invariant written <= frames && out.Length == frames && currentAlert == alert
          invariant Playing(config, s, written, frames, out[..], State(currentAlert, currentSoundFrame, pendingStop))
          invariant at == currentSoundFrame % len && loops == currentSoundFrame / len
        {
          ghost var now := State(currentAlert, currentSoundFrame, pendingStop);
          PlayingFits(config, s, written, frames, out[..], now);
          SampleIs(config, now);
          assert 0 <= at < len;
          var available := len - at;
          var n := if available < frames - written then available else frames - written;
          PlayRound(config, s, written, frames, out[..], now, n);
          Write(out, written, sound.data[at..at + n]);
          written := written + n;
          currentSoundFrame := currentSoundFrame + n;
          at, loops := currentSoundFrame % len, currentSoundFrame / len;
          if pendingStop && at == 0 {
            currentAlert := NONE;
            pendingStop := false;
            break;
          }
        }
      }
      ghost var now := State(currentAlert, currentSoundFrame, pendingStop);
      PlayingFits(config, s, written, frames, out[..], now);
      SampleIs(config, now);
      PlayEnds(config, s, written, frames, out[..], now);
      NowIs();
    }

    lemma {:induction false} NowIs()
      ensures Now() == State(currentAlert, currentSoundFrame, pendingStop)
    {}

    method SetAlert(alert: Alert)
      requires Fits(config, Now()) && (alert == NONE || alert in config.sounds)
      modifies this
      ensures Now() == UpdateAlert(config, old(Now()), alert) && Fits(config, Now())
    {
      var playedOnce := currentAlert == NONE || currentSoundFrame >= |config.sounds[currentAlert].data|;
      if alert == NONE && currentAlert != NONE && config.sounds[currentAlert].plays.None? {
        if playedOnce {
          pendingStop := true;
        } else {
          currentAlert := NONE;
          currentSoundFrame := 0;
        }
        return;
      }
      pendingStop := false;
      if currentAlert != alert && (alert != NONE || playedOnce) {
        currentAlert := alert;
        currentSoundFrame := 0;
      }
    }

    method Plays() returns (plays: bool)
      ensures plays == ShouldPlay(config, currentAlert)
    {
      plays := if config.quiet then currentAlert in config.always else currentAlert != NONE;
    }
  }

  lemma {:induction false} SilenceAt(n: nat)
    ensures forall k :: 0 <= k < n ==> Silence(n)[k] == 0.0
  {}

  /** Copies samples into the buffer from position n on. */
  method Write(b: array<real>, n: nat, samples: seq<real>)
    requires n + |samples| <= b.Length
    modifies b
    ensures b[..] == Overwritten(old(b[..]), n, samples)
  {
    forall k | 0 <= k < |samples| { b[n + k] := samples[k]; }
  }
}
