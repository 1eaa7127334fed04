/** The power state, the battery latch that feeds it and the OTA writes it yields to
    (src/core/power_manager.cpp, src/core/latched_threshold_monitor.cpp, src/core/ota_routes.cpp).

    `HomeStep` interleaves three threads: the clock thread runs the battery latch and posts ticks,
    HTTP threads bracket one write at a time with a pair of events, and the UI thread handles what
    was posted in order. Times are integers of the unit each call uses. */
module Powers {
  import opened Wrappers

  const IDLE_TIMEOUT_MS := 30000
  const SLEEP_TIMEOUT_MS := IDLE_TIMEOUT_MS + 90000
  const DIM_BRIGHTNESS := 20
  const SLEEP_BRIGHTNESS := 0
  const MIN_ACTIVE_BRIGHTNESS := 5
  const CRITICAL_PERCENT := 5

  datatype PowerState = Active | Idle | Sleeping | Updating | Error

  /** `shown` is the last percentage given to the display, None before the first one. */
  datatype Power = Power(state: PowerState, otaInProgress: bool, activePercent: int, vetoUntil: Option<int>,
                         shown: Option<int>, published: seq<PowerState>)
  {
    predicate Vetoed(now: int) {
      vetoUntil.Some? && now < vetoUntil.value
    }
  }

  function ClampActive(percent: int): (r: int)
    ensures MIN_ACTIVE_BRIGHTNESS <= r <= 100
    ensures MIN_ACTIVE_BRIGHTNESS <= percent <= 100 ==> r == percent
  {
    if percent < MIN_ACTIVE_BRIGHTNESS then MIN_ACTIVE_BRIGHTNESS else if percent > 100 then 100 else percent
  }

  function Min(a: int, b: int): int {
    if b < a then b else a
  }

  function Brightness(state: PowerState, activePercent: int): int {
    match state
    case Idle => Min(DIM_BRIGHTNESS, activePercent)
    case Sleeping => SLEEP_BRIGHTNESS
    case _ => activePercent
  }

  function Enter(p: Power, state: PowerState): Power {
    p.(state := state, shown := Some(Brightness(state, p.activePercent)), published := p.published + [state])
  }

  /** The state one clock tick leaves behind. */
  function AfterTick(state: PowerState, inactive: nat, vetoed: bool): PowerState {
    match state
    case Active => if inactive >= IDLE_TIMEOUT_MS then Idle else Active
    case Idle =>
      if inactive < IDLE_TIMEOUT_MS then Active
      else if inactive >= SLEEP_TIMEOUT_MS && !vetoed then Sleeping
      else Idle
    case Sleeping => if inactive < IDLE_TIMEOUT_MS then Active else Sleeping
    case _ => state
  }

  /** The state a finished write lands on. */
  function Landing(inactive: nat, vetoed: bool): PowerState {
    if inactive >= SLEEP_TIMEOUT_MS && !vetoed then Sleeping
    else if inactive >= IDLE_TIMEOUT_MS then Idle
    else Active
  }

  function Ticks(n: nat, state: PowerState, inactive: nat, vetoed: bool): PowerState {
    if n == 0 then state else AfterTick(Ticks(n - 1, state, inactive, vetoed), inactive, vetoed)
  }

  /** A finished write lands where repeated ticks would have settled: two ticks from Active get there,
      and no further tick moves it. */
  lemma {:induction false} LandingIsTheFixpoint(n: nat, inactive: nat, vetoed: bool)
    requires n >= 2
    ensures Ticks(n, Active, inactive, vetoed) == Landing(inactive, vetoed)
    ensures AfterTick(Landing(inactive, vetoed), inactive, vetoed) == Landing(inactive, vetoed)
    decreases n
  {
    if n > 2 {
      LandingIsTheFixpoint(n - 1, inactive, vetoed);
    } else {
      assert Ticks(1, Active, inactive, vetoed) == AfterTick(Ticks(0, Active, inactive, vetoed), inactive, vetoed);
    }
  }

  // ---- What each handler makes of the power state ----

  function Tick(p: Power, inactive: nat, now: int): Power {
    var next := AfterTick(p.state, inactive, p.Vetoed(now));
    if next == p.state then p else Enter(p, next)
  }

  function OtaChanged(p: Power, inProgress: bool, inactive: nat, now: int): Power {
    var q := p.(otaInProgress := inProgress);
    if p.state.Error? then q
    else if inProgress then Enter(q, Updating)
    else Enter(q, Landing(inactive, p.Vetoed(now)))
  }

  function CriticalChanged(p: Power, critical: bool): Power {
    if critical then Enter(p, Error)
    else if p.state.Error? then Enter(p, if p.otaInProgress then Updating else Active)
    else p
  }

  function ActiveBrightnessSet(p: Power, percent: int): Power {
    var q := p.(activePercent := ClampActive(percent));
    if p.state.Active? then q.(shown := Some(q.activePercent)) else q
  }

  class PowerManager {
    var state: PowerState
    var otaInProgress: bool
    var activePercent: int
    var vetoUntil: Option<int>
    var shown: Option<int>
    var published: seq<PowerState>

    ghost function View(): Power
      reads this
    {
      Power(state, otaInProgress, activePercent, vetoUntil, shown, published)
    }

    constructor (initialActivePercent: int)
      ensures View() == Power(Active, false, ClampActive(initialActivePercent), None, None, [])
    {
      state, otaInProgress, activePercent := Active, false, ClampActive(initialActivePercent);
      vetoUntil, shown, published := None, None, [];
    }

    method TransitionTo(newState: PowerState)
      modifies this
      ensures View() == Enter(old(View()), newState)
    {
      state := newState;
      var percent := activePercent;
      if newState == Idle {
        percent := if activePercent < DIM_BRIGHTNESS then activePercent else DIM_BRIGHTNESS;
      } else if newState == Sleeping {
        percent := SLEEP_BRIGHTNESS;
      }
      shown := Some(percent);
      published := published + [newState];
    }

    method HasActiveSleepVeto(now: int) returns (active: bool)
      ensures active == View().Vetoed(now)
    {
      active := vetoUntil.Some? && now < vetoUntil.value;
    }

    method OnTick(inactive: nat, now: int)
      modifies this
      ensures View() == Tick(old(View()), inactive, now)
    {
      if state == Updating || state == Error {
        return;
      }
      var vetoed := HasActiveSleepVeto(now);
      if state == Active && inactive >= IDLE_TIMEOUT_MS {
        TransitionTo(Idle);
      } else if state == Idle {
        if inactive < IDLE_TIMEOUT_MS {
          TransitionTo(Active);
        } else if inactive >= SLEEP_TIMEOUT_MS && !vetoed {
          TransitionTo(Sleeping);
        }
      } else if state == Sleeping && inactive < IDLE_TIMEOUT_MS {
        TransitionTo(Active);
      }
    }

    method OnOtaChanged(inProgress: bool, inactive: nat, now: int)
      modifies this
      ensures View() == OtaChanged(old(View()), inProgress, inactive, now)
    {
      otaInProgress := inProgress;
      if inProgress {
        if state != Error {
          TransitionTo(Updating);
        }
      } else if state != Error {
        var vetoed := HasActiveSleepVeto(now);
        if inactive >= SLEEP_TIMEOUT_MS && !vetoed {
          TransitionTo(Sleeping);
        } else if inactive >= IDLE_TIMEOUT_MS {
          TransitionTo(Idle);
        } else {
          TransitionTo(Active);
        }
      }
    }

    method OnCriticalChanged(critical: bool)
      modifies this
      ensures View() == CriticalChanged(old(View()), critical)
    {
      if critical {
        TransitionTo(Error);
      } else if state == Error {
        TransitionTo(if otaInProgress then Updating else Active);
      }
    }

    method SetActiveBrightnessPercent(percent: int)
      modifies this
      ensures View() == ActiveBrightnessSet(old(View()), percent)
    {
      activePercent := ClampActive(percent);
      if state == Active {
        shown := Some(activePercent);
      }
    }

    method RequestSleepVeto(now: int, duration: int)
      modifies this
      ensures View() == old(View()).(vetoUntil := Some(now + duration))
    {
      vetoUntil := Some(now + duration);
    }
  }

  // ---- The battery latch ----

  datatype Reading = Reading(present: bool, percent: int, externalPower: bool)

  predicate Bad(r: Reading) {
    r.percent < CRITICAL_PERCENT && !r.externalPower
  }

  /** What the latch says after a reading: no battery counts as not bad. */
  predicate Latched(r: Reading) {
    r.present && Bad(r)
  }

  class LatchedThresholdMonitor {
    var alreadyBad: bool

    constructor ()
      ensures !alreadyBad
    {
      alreadyBad := false;
    }

    /** `edge` is the callback that fired: Some(true) on entering, Some(false) on leaving. */
    method OnTick(r: Reading) returns (edge: Option<bool>)
      modifies this
      ensures alreadyBad == Latched(r)
      ensures edge == if Latched(r) == old(alreadyBad) then None else Some(Latched(r))
    {
      edge := None;
      if !r.present {
        if alreadyBad {
          alreadyBad := false;
          edge := Some(false);
        }
        return;
      }
      var bad := Bad(r);
      if bad && !alreadyBad {
        alreadyBad := true;
        edge := Some(true);
      } else if !bad && alreadyBad {
        alreadyBad := false;
        edge := Some(false);
      }
    }
  }

  // ---- The three threads together ----

  datatype Posted = ClockTick | OtaEvent(inProgress: bool) | CriticalEvent(critical: bool)

  /** `posted` is everything ever posted to the UI thread, of which `taken` events are handled. */
  datatype Home = Home(latched: bool, writing: bool, posted: seq<Posted>, taken: nat, power: Power)

  datatype Event =
    | BatteryRead(reading: Reading)
    | PostTick
    | StartWrite
    | FinishWrite
    | UiTurn(inactive: nat, now: int)
    | SetBrightness(percent: int)
    | Veto(at: int, duration: int)

  function Init(initialActivePercent: int): Home {
    Home(false, false, [], 0, Power(Active, false, ClampActive(initialActivePercent), None, None, []))
  }

  function Post(h: Home, e: Posted): Home {
    h.(posted := h.posted + [e])
  }

  function Handle(p: Power, e: Posted, inactive: nat, now: int): Power {
    match e
    case ClockTick => Tick(p, inactive, now)
    case OtaEvent(b) => OtaChanged(p, b, inactive, now)
    case CriticalEvent(c) => CriticalChanged(p, c)
  }

  /** An upload that finds another one writing is answered 409 and posts nothing. */
  function HomeStep(h: Home, e: Event): Home {
    match e
    case BatteryRead(r) =>
      if Latched(r) == h.latched then h else Post(h, CriticalEvent(Latched(r))).(latched := Latched(r))
    case PostTick => Post(h, ClockTick)
    case StartWrite => if h.writing then h else Post(h, OtaEvent(true)).(writing := true)
    case FinishWrite => if h.writing then Post(h, OtaEvent(false)).(writing := false) else h
    case UiTurn(inactive, now) =>
      if h.taken < |h.posted| then
        h.(taken := h.taken + 1, power := Handle(h.power, h.posted[h.taken], inactive, now))
      else h
    case SetBrightness(percent) => h.(power := ActiveBrightnessSet(h.power, percent))
    case Veto(at, duration) => h.(power := h.power.(vetoUntil := Some(at + duration)))
  }

  function Run(h: Home, es: seq<Event>): Home {
    if es == [] then h else HomeStep(Run(h, es[..|es| - 1]), es[|es| - 1])
  }

  // ---- Facts about what was posted ----

  function LastCritical(es: seq<Posted>): bool {
    if es == [] then false
    else match es[|es| - 1] {
      case CriticalEvent(c) => c
      case _ => LastCritical(es[..|es| - 1])
    }
  }

  function LastOta(es: seq<Posted>): bool {
    if es == [] then false
    else match es[|es| - 1] {
      case OtaEvent(b) => b
      case _ => LastOta(es[..|es| - 1])
    }
  }

  /** Event i differs from the last of its kind before it. */
  predicate IsEdge(es: seq<Posted>, i: nat)
    requires i < |es|
  {
    match es[i]
    case CriticalEvent(c) => c != LastCritical(es[..i])
    case OtaEvent(b) => b != LastOta(es[..i])
    case ClockTick => true
  }

  ghost predicate PostedWell(h: Home) {
    && h.taken <= |h.posted|
    && LastCritical(h.posted) == h.latched
    && LastOta(h.posted) == h.writing
    && forall i :: 0 <= i < |h.posted| ==> IsEdge(h.posted, i)
  }

  /** The state says exactly why the screen is as it is. */
  predicate StateSaysWhy(p: Power, critical: bool, writing: bool) {
    && p.otaInProgress == writing
    && (p.state.Error? <==> critical)
    && (p.state.Updating? <==> writing && !critical)
  }

  predicate DisplayFollows(p: Power) {
    && MIN_ACTIVE_BRIGHTNESS <= p.activePercent <= 100
    && (p.shown == Some(SLEEP_BRIGHTNESS) <==> p.state.Sleeping?)
    && (p.shown.None? ==> p.state.Active?)
    && (p.shown.Some? ==> 0 <= p.shown.value <= 100)
    && (p.state.Idle? && p.shown.Some? ==> p.shown.value <= DIM_BRIGHTNESS)
    && (p.state.Active? && p.shown.Some? ==> p.shown.value == p.activePercent)
  }

  function Before(published: seq<PowerState>, i: nat): PowerState
    requires i <= |published|
  {
    if i == 0 then Active else published[i - 1]
  }

  /** No state is announced twice in a row, Active being the one to start from. */
  predicate NeverRepeats(published: seq<PowerState>) {
    forall i :: 0 <= i < |published| ==> published[i] != Before(published, i)
  }

  predicate PublishedWell(p: Power) {
    p.state == Before(p.published, |p.published|) && NeverRepeats(p.published)
  }

  ghost predicate Inv(h: Home) {
    && PostedWell(h)
    && StateSaysWhy(h.power, LastCritical(h.posted[..h.taken]), LastOta(h.posted[..h.taken]))
    && DisplayFollows(h.power)
    && PublishedWell(h.power)
  }

  lemma PostKeepsInv(h: Home, e: Posted, latched: bool, writing: bool)
    requires Inv(h)
    requires match e
             case CriticalEvent(c) => c != h.latched && latched == c && writing == h.writing
             case OtaEvent(b) => b != h.writing && writing == b && latched == h.latched
             case ClockTick => latched == h.latched && writing == h.writing
    ensures Inv(Post(h, e).(latched := latched, writing := writing))
  {
    var es := h.posted + [e];
    assert es[..|es| - 1] == h.posted;
    assert es[..h.taken] == h.posted[..h.taken];
    forall i | 0 <= i < |es|
      ensures IsEdge(es, i)
    {
      if i < |h.posted| {
        assert es[..i] == h.posted[..i];
        assert IsEdge(h.posted, i);
      }
    }
  }

  lemma EnterKeepsDisplay(p: Power, state: PowerState)
    requires DisplayFollows(p) && PublishedWell(p) && p.state != state
    ensures DisplayFollows(Enter(p, state)) && PublishedWell(Enter(p, state))
  {
    var published := Enter(p, state).published;
    forall i | 0 <= i < |published|
      ensures published[i] != Before(published, i)
    {
      if i < |p.published| {
        assert Before(published, i) == Before(p.published, i);
      }
    }
  }

  lemma TakeOne(es: seq<Posted>, i: nat)
    requires i < |es|
    ensures LastCritical(es[..i + 1]) == if es[i].CriticalEvent? then es[i].critical else LastCritical(es[..i])
    ensures LastOta(es[..i + 1]) == if es[i].OtaEvent? then es[i].inProgress else LastOta(es[..i])
  {
    assert es[..i + 1][..i] == es[..i];
  }

  /** One handled event: it is an edge against what was handled before it. */
  lemma HandleKeepsInv(p: Power, e: Posted, critical: bool, writing: bool, inactive: nat, now: int)
    requires StateSaysWhy(p, critical, writing)
    requires DisplayFollows(p) && PublishedWell(p)
    requires e.CriticalEvent? ==> e.critical != critical
    requires e.OtaEvent? ==> e.inProgress != writing
    ensures var q := Handle(p, e, inactive, now);
            && StateSaysWhy(q, if e.CriticalEvent? then e.critical else critical,
                            if e.OtaEvent? then e.inProgress else writing)
            && DisplayFollows(q)
            && PublishedWell(q)
  {
    var q := Handle(p, e, inactive, now);
    if q.state != p.state {
      EnterKeepsDisplay(p.(otaInProgress := q.otaInProgress), q.state);
    }
  }

  lemma TurnKeepsInv(h: Home, inactive: nat, now: int)
    requires Inv(h) && h.taken < |h.posted|
    ensures Inv(HomeStep(h, UiTurn(inactive, now)))
  {
    TakeOne(h.posted, h.taken);
    assert IsEdge(h.posted, h.taken);
    HandleKeepsInv(h.power, h.posted[h.taken], LastCritical(h.posted[..h.taken]), LastOta(h.posted[..h.taken]),
                   inactive, now);
  }

  lemma StepKeepsInv(h: Home, e: Event)
    requires Inv(h)
    ensures Inv(HomeStep(h, e))
  {
    match e
    case BatteryRead(r) =>
      if Latched(r) != h.latched {
        PostKeepsInv(h, CriticalEvent(Latched(r)), Latched(r), h.writing);
      }
    case PostTick => PostKeepsInv(h, ClockTick, h.latched, h.writing);
    case StartWrite =>
      if !h.writing {
        PostKeepsInv(h, OtaEvent(true), h.latched, true);
      }
    case FinishWrite =>
      if h.writing {
        PostKeepsInv(h, OtaEvent(false), h.latched, false);
      }
    case UiTurn(inactive, now) =>
      if h.taken < |h.posted| {
        TurnKeepsInv(h, inactive, now);
      }
    case SetBrightness(percent) => {}
    case Veto(at, duration) => {}
  }

  lemma {:induction false} RunKeepsInv(initialActivePercent: int, es: seq<Event>)
    ensures Inv(Run(Init(initialActivePercent), es))
  {
    if es != [] {
      RunKeepsInv(initialActivePercent, es[..|es| - 1]);
      StepKeepsInv(Run(Init(initialActivePercent), es[..|es| - 1]), es[|es| - 1]);
    }
  }

  // ---- Main results ----

  /** In every reachable state: Error exactly when the last battery edge handled was critical,
      Updating exactly when the last write event handled was a start and the battery is not critical. */
  lemma StateIsTheReason(initialActivePercent: int, es: seq<Event>)
    ensures var h := Run(Init(initialActivePercent), es);
            && h.taken <= |h.posted|
            && (h.power.state.Error? <==> LastCritical(h.posted[..h.taken]))
            && (h.power.state.Updating? <==> LastOta(h.posted[..h.taken]) && !LastCritical(h.posted[..h.taken]))
  {
    RunKeepsInv(initialActivePercent, es);
  }

  /** With nothing left to handle, the state agrees with the battery and with the write itself. */
  lemma StateIsTheTruthOnceDrained(initialActivePercent: int, es: seq<Event>)
    requires var h := Run(Init(initialActivePercent), es); h.taken == |h.posted|
    ensures var h := Run(Init(initialActivePercent), es);
            && (h.power.state.Error? <==> h.latched)
            && (h.power.state.Updating? <==> h.writing && !h.latched)
  {
    RunKeepsInv(initialActivePercent, es);
    var h := Run(Init(initialActivePercent), es);
    assert h.posted[..h.taken] == h.posted;
  }

  lemma NothingPublishedTwice(initialActivePercent: int, es: seq<Event>)
    ensures var p := Run(Init(initialActivePercent), es).power;
            && NeverRepeats(p.published)
            && p.state == Before(p.published, |p.published|)
  {
    RunKeepsInv(initialActivePercent, es);
  }

  /** The screen is dark exactly while Sleeping, dimmed while Idle, and as the user set it while Active. */
  lemma DarkExactlyWhileSleeping(initialActivePercent: int, es: seq<Event>)
    ensures DisplayFollows(Run(Init(initialActivePercent), es).power)
  {
    RunKeepsInv(initialActivePercent, es);
  }

  /** Sleeping is entered only after the full timeout and never against a veto; Error is left only
      by the battery recovering. */
  lemma OnlyTheseTransitions(initialActivePercent: int, es: seq<Event>, e: Event)
    ensures var h := Run(Init(initialActivePercent), es);
            var g := HomeStep(h, e);
            && (g.power.state.Sleeping? && !h.power.state.Sleeping? ==>
                  e.UiTurn? && e.inactive >= SLEEP_TIMEOUT_MS && !h.power.Vetoed(e.now))
            && (h.power.state.Error? && !g.power.state.Error? ==>
                  g.power.state == if LastOta(g.posted[..g.taken]) then Updating else Active)
            && (h.power.state.Updating? && !g.power.state.Updating? ==>
                  (g.power.state.Error? || !LastOta(g.posted[..g.taken])))
  {
    RunKeepsInv(initialActivePercent, es);
    var h := Run(Init(initialActivePercent), es);
    StepKeepsInv(h, e);
    if e.UiTurn? && h.taken < |h.posted| {
      TakeOne(h.posted, h.taken);
    }
  }

  // ---- What the inputs of a run decide ----

  /** When the latest sleep veto asked for runs out. */
  function VetoOf(es: seq<Event>): Option<int> {
    if es == [] then None
    else match es[|es| - 1] {
      case Veto(at, duration) => Some(at + duration)
      case _ => VetoOf(es[..|es| - 1])
    }
  }

  /** The brightness last asked for. */
  function PercentOf(initialActivePercent: int, es: seq<Event>): int {
    if es == [] then initialActivePercent
    else match es[|es| - 1] {
      case SetBrightness(percent) => percent
      case _ => PercentOf(initialActivePercent, es[..|es| - 1])
    }
  }

  function ReadingOf(es: seq<Event>): Option<Reading> {
    if es == [] then None
    else match es[|es| - 1] {
      case BatteryRead(r) => Some(r)
      case _ => ReadingOf(es[..|es| - 1])
    }
  }

  function WritingOf(es: seq<Event>): bool {
    if es == [] then false
    else match es[|es| - 1] {
      case StartWrite => true
      case FinishWrite => false
      case _ => WritingOf(es[..|es| - 1])
    }
  }

  function TicksOf(es: seq<Event>): nat {
    if es == [] then 0 else TicksOf(es[..|es| - 1]) + (if es[|es| - 1].PostTick? then 1 else 0)
  }

  function TicksPosted(posted: seq<Posted>): nat {
    if posted == [] then 0
    else TicksPosted(posted[..|posted| - 1]) + (if posted[|posted| - 1].ClockTick? then 1 else 0)
  }

  lemma TicksPostedSnoc(posted: seq<Posted>, e: Posted)
    ensures TicksPosted(posted + [e]) == TicksPosted(posted) + (if e.ClockTick? then 1 else 0)
  {
    assert (posted + [e])[..|posted|] == posted;
  }

  lemma TicksStep(h: Home, e: Event)
    ensures TicksPosted(HomeStep(h, e).posted) == TicksPosted(h.posted) + (if e.PostTick? then 1 else 0)
  {
    match e
    case BatteryRead(r) => TicksPostedSnoc(h.posted, CriticalEvent(Latched(r)));
    case PostTick => TicksPostedSnoc(h.posted, ClockTick);
    case StartWrite => TicksPostedSnoc(h.posted, OtaEvent(true));
    case FinishWrite => TicksPostedSnoc(h.posted, OtaEvent(false));
    case _ => {}
  }

  ghost predicate Remembers(h: Home, veto: Option<int>, percent: int, reading: Option<Reading>, writing: bool) {
    && h.power.vetoUntil == veto
    && h.power.activePercent == (if percent < 5 then 5 else if percent > 100 then 100 else percent)
    && (h.latched <==> reading.Some? && reading.value.present && reading.value.percent < 5
                       && !reading.value.externalPower)
    && h.writing == writing
  }

  lemma TurnRemembers(p: Power, e: Posted, inactive: nat, now: int)
    ensures var q := Handle(p, e, inactive, now); q.vetoUntil == p.vetoUntil && q.activePercent == p.activePercent
  {
  }

  lemma RemembersStep(h: Home, e: Event, veto: Option<int>, percent: int, reading: Option<Reading>, writing: bool)
    requires Remembers(h, veto, percent, reading, writing)
    ensures Remembers(HomeStep(h, e),
                      if e.Veto? then Some(e.at + e.duration) else veto,
                      if e.SetBrightness? then e.percent else percent,
                      if e.BatteryRead? then Some(e.reading) else reading,
                      if e.StartWrite? then true else if e.FinishWrite? then false else writing)
  {
    if e.UiTurn? && h.taken < |h.posted| {
      TurnRemembers(h.power, h.posted[h.taken], e.inactive, e.now);
    }
  }

  /** The battery is bad below five percent on its own power; the veto is the latest one asked for; the active
      brightness is the latest one asked for, brought into 5 to 100; every tick is posted. */
  lemma {:induction false} InputsAreRemembered(initialActivePercent: int, es: seq<Event>)
    ensures var h := Run(Init(initialActivePercent), es);
            && Remembers(h, VetoOf(es), PercentOf(initialActivePercent, es), ReadingOf(es), WritingOf(es))
            && TicksPosted(h.posted) == TicksOf(es)
  {
    if es != [] {
      var init := es[..|es| - 1];
      InputsAreRemembered(initialActivePercent, init);
      RemembersStep(Run(Init(initialActivePercent), init), es[|es| - 1],
                    VetoOf(init), PercentOf(initialActivePercent, init), ReadingOf(init), WritingOf(init));
      TicksStep(Run(Init(initialActivePercent), init), es[|es| - 1]);
    }
  }

  /** What the display is told on entering a state. */
  predicate ShownOnEntering(p: Power) {
    match p.state
    case Sleeping => p.shown == Some(0)
    case Idle => p.shown == Some(if p.activePercent < 20 then p.activePercent else 20)
    case _ => p.shown == Some(p.activePercent)
  }

  /** A state change is shown and published, once; without one nothing is. */
  predicate Announced(p: Power, q: Power) {
    if q.state == p.state && q.published == p.published then q.shown == p.shown
    else ShownOnEntering(q) && q.published == p.published + [q.state]
  }

  /** What one handled event does, in plain numbers. Outside Error and Updating a tick leaves the screen
      Active exactly when there was activity in the last thirty seconds, so any activity wakes it; it sleeps only
      from Idle, after two minutes and against no veto, and then stays asleep. */
  ghost predicate TickLaw(p: Power, q: Power, inactive: nat, vetoed: bool) {
    && (p.state.Updating? || p.state.Error? ==> q == p)
    && (!p.state.Updating? && !p.state.Error? ==>
          && (q.state.Active? <==> inactive < 30_000)
          && (q.state.Sleeping? <==> inactive >= 30_000
                                     && (p.state.Sleeping? || (p.state.Idle? && inactive >= 120_000 && !vetoed)))
          && (q.state.Idle? || q.state.Active? || q.state.Sleeping?))
    && (q.state == p.state ==> q == p)
  }

  /** A finished write lands on what the inactivity so far calls for, unless the battery is critical. */
  ghost predicate FinishLaw(p: Power, q: Power, inactive: nat, vetoed: bool) {
    if p.state.Error? then q == p.(otaInProgress := false)
    else
      && (q.state.Active? <==> inactive < 30_000)
      && (q.state.Sleeping? <==> inactive >= 120_000 && !vetoed)
      && (q.state.Idle? || q.state.Active? || q.state.Sleeping?)
      && q.published == p.published + [q.state]
  }

  lemma HandleLaw(p: Power, e: Posted, inactive: nat, now: int)
    ensures var q := Handle(p, e, inactive, now);
            && Announced(p, q)
            && q.vetoUntil == p.vetoUntil && q.activePercent == p.activePercent
            && (e.ClockTick? ==> TickLaw(p, q, inactive, p.vetoUntil.Some? && now < p.vetoUntil.value))
            && (e == OtaEvent(false) ==> FinishLaw(p, q, inactive, p.vetoUntil.Some? && now < p.vetoUntil.value))
            && (e == CriticalEvent(false) && !p.state.Error? ==> q == p)
            && (e == OtaEvent(true) && p.state.Error? ==> q == p.(otaInProgress := true))
  {
  }

  /** In every run each turn of the UI thread handles exactly the next event posted: a tick and a finished write
      do what the inactivity and the latest veto call for, and every change is shown and published once. */
  lemma TurnDoesWhatInactivityCallsFor(initialActivePercent: int, es: seq<Event>, inactive: nat, now: int)
    requires var h := Run(Init(initialActivePercent), es); h.taken < |h.posted|
    ensures var h := Run(Init(initialActivePercent), es);
            var g := HomeStep(h, UiTurn(inactive, now));
            var vetoed := VetoOf(es).Some? && now < VetoOf(es).value;
            && g.taken == h.taken + 1 && g.posted == h.posted
            && Announced(h.power, g.power)
            && (h.posted[h.taken].ClockTick? ==> TickLaw(h.power, g.power, inactive, vetoed))
            && (h.posted[h.taken] == OtaEvent(false) ==> FinishLaw(h.power, g.power, inactive, vetoed))
  {
    InputsAreRemembered(initialActivePercent, es);
    var h := Run(Init(initialActivePercent), es);
    HandleLaw(h.power, h.posted[h.taken], inactive, now);
  }

  predicate IdleIsDimmer(p: Power) {
    p.state.Idle? && p.shown.Some? ==> p.shown.value <= p.activePercent
  }

  lemma StepOutshines(h: Home, e: Event)
    requires DisplayFollows(h.power) && IdleIsDimmer(h.power)
    ensures !IdleIsDimmer(HomeStep(h, e).power)
            <==> h.power.state.Idle? && e.SetBrightness? && ClampActive(e.percent) < h.power.shown.value
  {
  }

  /** An idle screen is no brighter than an active one, until the user lowers the active brightness
      below what the idle screen shows: that call, and no other step, breaks it. */
  lemma OnlyLoweringActiveOutshines(initialActivePercent: int, es: seq<Event>, e: Event)
    ensures var p := Run(Init(initialActivePercent), es).power;
            var q := HomeStep(Run(Init(initialActivePercent), es), e).power;
            && (p.state.Idle? ==> p.shown.Some?)
            && (IdleIsDimmer(p) ==>
                  (!IdleIsDimmer(q) <==> p.state.Idle? && e.SetBrightness? && ClampActive(e.percent) < p.shown.value))
  {
    RunKeepsInv(initialActivePercent, es);
    var h := Run(Init(initialActivePercent), es);
    if IdleIsDimmer(h.power) {
      StepOutshines(h, e);
    }
  }

  lemma IdleCanOutshineActive()
    ensures var h := Run(Init(80), [PostTick, UiTurn(IDLE_TIMEOUT_MS, 0), SetBrightness(10)]);
            h.power.state == Idle && h.power.shown == Some(20) && h.power.activePercent == 10
  {
    var es := [PostTick, UiTurn(IDLE_TIMEOUT_MS, 0), SetBrightness(10)];
    assert es[..2] == [PostTick, UiTurn(IDLE_TIMEOUT_MS, 0)];
    assert es[..2][..1] == [PostTick];
    assert es[..1][..0] == [];
    var a := Run(Init(80), es[..1]);
    assert a == HomeStep(Run(Init(80), []), PostTick);
    assert es[..2][..1] == es[..1];
    var b := Run(Init(80), es[..2]);
    assert b == HomeStep(a, UiTurn(IDLE_TIMEOUT_MS, 0));
  }

  /** Two uploads at once would announce Updating twice, unless the battery is critical: serialising them is
      what prevents it. */
  lemma UnserialisedWritesRepeat(p: Power, inactive: nat, now: int)
    requires PublishedWell(p) && !p.state.Updating?
    ensures var q := OtaChanged(OtaChanged(p, true, inactive, now), true, inactive, now);
            NeverRepeats(q.published) <==> p.state.Error?
  {
    if p.state.Error? {
      return;
    }
    var q := OtaChanged(OtaChanged(p, true, inactive, now), true, inactive, now);
    var n := |p.published|;
    assert q.published[n + 1] == Before(q.published, n + 1);
  }
}
