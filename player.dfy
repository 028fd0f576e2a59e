/**
 * The page side of content/applyPreset.js. The page is abstract state (the video's playback
 * rate, the watch layout, the captions and autoplay toggles, the sleep-timer slot) and every
 * click, request or timer call the script makes is an event appended to an action log. Each
 * step is specified by a function from the state it reads to the events it emits; the Page
 * class performs the steps one statement at a time and is proved against those functions.
 */
module Player {
  import opened Wrappers
  import opened JsText
  import opened PresetRecord
  import opened Quality

  /** A control with a pressed or checked attribute: absent from the page, or present with its state. */
  datatype Toggle = Absent | Present(on: bool)

  /** The ytd-watch-flexy container: absent, or present with or without the theater attribute. */
  datatype Layout = NoLayout | Flexy(theater: bool)

  /** The player's settings button and the menus behind it: the root settings menu and the
      quality submenu shown once the quality entry is clicked, each as its items' text. */
  datatype Settings = NoSettingsButton | SettingsButton(rootMenu: seq<string>, qualityMenu: seq<string>)

  /** The steps of applyPreset after the player check, in the order they run. */
  datatype Step = SpeedStep | QualityStep | ViewModeStep | CaptionsStep | SleepTimerStep

  const StepOrder: seq<Step> := [SpeedStep, QualityStep, ViewModeStep, CaptionsStep, SleepTimerStep]

  /**
   * What the page offers and the steps only read: the video element, the size and fullscreen
   * buttons, document.fullscreenElement, document.pictureInPictureEnabled and the video's
   * disablePictureInPicture, and the settings menus. Which steps raise is a separate set of
   * steps (a raising step raises before its first action; the orchestrator catches it).
   */
  datatype Env = Env(
    hasVideo: bool,
    hasSizeButton: bool,
    hasFullscreenButton: bool,
    inFullscreen: bool,
    pipEnabled: bool,
    videoDisablesPip: bool,
    settings: Settings)

  /** One action of the script on the page. */
  datatype Event =
    | SetRate(rate: real)
    | ClickSettings
    | ClickRootItem(root: nat)
    | ClickQualityItem(item: nat)
    | ClickOutside
    | ClickSize
    | ClickFullscreen
    | RequestFullscreen
    | RequestPip
    | ClickSubtitles
    | ClearTimer
    | ArmTimer(delayMs: real)
    | ClickAutonav

  /** The page state the steps read and change; timer is window.__ytp_sleepTimerId, None for
      null and Some(d) for the id of a timer armed with delay d. */
  datatype PageState = PageState(rate: real, layout: Layout, subtitles: Toggle, autonav: Toggle, timer: Option<real>)

  /** What one action does to the page. Menu clicks and fullscreen or picture-in-picture
      requests change nothing the steps read. */
  function Next(st: PageState, e: Event): PageState {
    match e
    case SetRate(r) => st.(rate := r)
    case ClickSize => if st.layout.Flexy? then st.(layout := Flexy(!st.layout.theater)) else st
    case ClickSubtitles => if st.subtitles.Present? then st.(subtitles := Present(!st.subtitles.on)) else st
    case ClickAutonav => if st.autonav.Present? then st.(autonav := Present(!st.autonav.on)) else st
    case ClearTimer => st.(timer := None)
    case ArmTimer(d) => st.(timer := Some(d))
    case _ => st
  }

  /** The page after a sequence of actions. */
  function Replay(st: PageState, es: seq<Event>): PageState
    decreases |es|
  {
    if es == [] then st else Replay(Next(st, es[0]), es[1..])
  }

  lemma {:induction false} ReplayAppend(st: PageState, a: seq<Event>, b: seq<Event>)
    ensures Replay(st, a + b) == Replay(Replay(st, a), b)
    decreases |a|
  {
    if a != [] {
      assert (a + b)[0] == a[0];
      assert (a + b)[1..] == a[1..] + b;
      ReplayAppend(Next(st, a[0]), a[1..], b);
    } else {
      assert a + b == b;
    }
  }

  /** Whether a timer is armed after the actions, or None if some action arms a timer while
      one is armed (two timers at once). */
  function ArmedAfter(armed: bool, es: seq<Event>): Option<bool>
    decreases |es|
  {
    if es == [] then Some(armed)
    else match es[0]
      case ClearTimer => ArmedAfter(false, es[1..])
      case ArmTimer(_) => if armed then None else ArmedAfter(true, es[1..])
      case _ => ArmedAfter(armed, es[1..])
  }

  lemma {:induction false} ArmedAppend(armed: bool, a: seq<Event>, b: seq<Event>)
    ensures ArmedAfter(armed, a + b) == (match ArmedAfter(armed, a) case None => None case Some(x) => ArmedAfter(x, b))
    decreases |a|
  {
    if a != [] {
      assert (a + b)[0] == a[0];
      assert (a + b)[1..] == a[1..] + b;
      match a[0]
      case ClearTimer => ArmedAppend(false, a[1..], b);
      case ArmTimer(_) => if !armed { ArmedAppend(true, a[1..], b); }
      case _ => ArmedAppend(armed, a[1..], b);
    } else {
      assert a + b == b;
    }
  }

  /** The step each action belongs to. */
  function Rank(e: Event): Step {
    match e
    case SetRate(_) => SpeedStep
    case ClickSettings => QualityStep
    case ClickRootItem(_) => QualityStep
    case ClickQualityItem(_) => QualityStep
    case ClickOutside => QualityStep
    case ClickSize => ViewModeStep
    case ClickFullscreen => ViewModeStep
    case RequestFullscreen => ViewModeStep
    case RequestPip => ViewModeStep
    case ClickSubtitles => CaptionsStep
    case ClearTimer => SleepTimerStep
    case ArmTimer(_) => SleepTimerStep
    case ClickAutonav => SleepTimerStep
  }

  function StepIndex(s: Step): nat {
    match s
    case SpeedStep => 0
    case QualityStep => 1
    case ViewModeStep => 2
    case CaptionsStep => 3
    case SleepTimerStep => 4
  }

  // ---------------------------------------------------------------- the steps, as functions

  /** setSpeed: the rate is assigned; a NaN speed makes the assignment throw a TypeError,
      which setSpeed swallows. */
  function SpeedEvents(speed: Option<real>): (es: seq<Event>)
    ensures forall e :: e in es ==> Rank(e) == SpeedStep
  {
    match speed
    case None => []
    case Some(r) => [SetRate(r)]
  }

  /** setQuality: open the settings menu; click the quality entry or, when there is none, click
      outside and stop; click the chosen item of the submenu if any; click outside. */
  function QualityEvents(settings: Settings, target: Target): (es: seq<Event>)
    ensures forall e :: e in es ==> Rank(e) == QualityStep
  {
    match settings
    case NoSettingsButton => []
    case SettingsButton(root, options) =>
      match FindQualityEntry(root)
      case None => [ClickSettings, ClickOutside]
      case Some(i) =>
        [ClickSettings, ClickRootItem(i)] + PickEvents(target, options) + [ClickOutside]
  }

  /** chosen?.opt.click() */
  function PickEvents(target: Target, options: seq<string>): (es: seq<Event>)
    ensures forall e :: e in es ==> Rank(e) == QualityStep
  {
    match Select(target, Mapped(options)) case None => [] case Some(j) => [ClickQualityItem(j)]
  }

  /** setViewMode: the size button toggles between default and theater layouts; fullscreen clicks
      the fullscreen button and, when the document is not in fullscreen, requests it; pip
      requests picture-in-picture when the document and the video allow it. */
  function ViewModeEvents(env: Env, layout: Layout, mode: string): (es: seq<Event>)
    ensures forall e :: e in es ==> Rank(e) == ViewModeStep
  {
    if mode == "default" && layout.Flexy? && layout.theater then SizeEvents(env)
    else if mode == "theater" && layout.Flexy? && !layout.theater then SizeEvents(env)
    else if mode == "fullscreen" then FullscreenEvents(env)
    else if mode == "pip" && env.pipEnabled && !env.videoDisablesPip then [RequestPip]
    else []
  }

  /** sizeBtn?.click() */
  function SizeEvents(env: Env): (es: seq<Event>)
    ensures forall e :: e in es ==> Rank(e) == ViewModeStep
  {
    if env.hasSizeButton then [ClickSize] else []
  }

  /** fsBtn?.click(), then requestFullscreen when document.fullscreenElement is unset. */
  function FullscreenEvents(env: Env): (es: seq<Event>)
    ensures forall e :: e in es ==> Rank(e) == ViewModeStep
  {
    (if env.hasFullscreenButton then [ClickFullscreen] else [])
    + (if !env.inFullscreen then [RequestFullscreen] else [])
  }

  /** setCaptions: click the subtitles button when it is pressed and "off" is asked for, or not
      pressed and "on" is asked for. */
  function CaptionsEvents(subtitles: Toggle, mode: string): (es: seq<Event>)
    ensures forall e :: e in es ==> Rank(e) == CaptionsStep
  {
    match subtitles
    case Absent => []
    case Present(pressed) =>
      if (mode == "on" && !pressed) || (mode == "off" && pressed) then [ClickSubtitles] else []
  }

  /** maybeDisableAutoplay: click the autoplay toggle when it is checked. */
  function AutonavEvents(autonav: Toggle): (es: seq<Event>)
    ensures forall e :: e in es ==> Rank(e) == SleepTimerStep
  {
    if autonav == Present(true) then [ClickAutonav] else []
  }

  /** A sleep-timer value as setupSleepTimer reads it: no timer for "" and "off", the end of
      the video for "end", and otherwise parseFloat of the value as minutes (None for NaN). */
  datatype TimerRequest = NoTimer | AtEnd | AfterMinutes(minutes: Option<real>)

  function TimerRequestOf(spec: string): (q: TimerRequest)
    ensures q.NoTimer? <==> spec == "" || spec == "off"
    ensures q.AtEnd? <==> spec == "end"
  {
    if spec == "" || spec == "off" then NoTimer
    else if spec == "end" then AtEnd
    else AfterMinutes(ParseDecimal(spec))
  }

  /** The delay in milliseconds of the timer a request arms: minutes * 60 * 1000 for a positive
      number of minutes, none otherwise. */
  function RequestDelay(q: TimerRequest): (d: Option<real>)
    ensures d.Some? ==> d.value > 0.0 && q.AfterMinutes?
  {
    match q
    case AfterMinutes(m) => MinutesDelay(m)
    case _ => None
  }

  /** The delay of the timer a sleep-timer value arms. */
  function TimerDelay(spec: string): (d: Option<real>)
    ensures d.Some? ==> d.value > 0.0 && spec != "" && spec != "off" && spec != "end"
  {
    RequestDelay(TimerRequestOf(spec))
  }

  /** A number of minutes (None for NaN) in milliseconds, when it is positive. */
  function MinutesDelay(minutes: Option<real>): (d: Option<real>)
    ensures d.Some? ==> d.value > 0.0
  {
    if minutes.Some? && minutes.value > 0.0 then Some(minutes.value * 60.0 * 1000.0) else None
  }

  /** The first part of setupSleepTimer: cancel the stored timer, if there is one. */
  function CancelEvents(timer: Option<real>): (es: seq<Event>)
    ensures forall e :: e in es ==> Rank(e) == SleepTimerStep
  {
    if timer.Some? then [ClearTimer] else []
  }

  /** The rest of setupSleepTimer: nothing for "" and "off", the autoplay toggle for "end", and
      a new timer for a positive number of minutes. */
  function ScheduleEvents(autonav: Toggle, q: TimerRequest): (es: seq<Event>)
    ensures forall e :: e in es ==> Rank(e) == SleepTimerStep
  {
    match q
    case NoTimer => []
    case AtEnd => AutonavEvents(autonav)
    case AfterMinutes(m) => ArmEvents(MinutesDelay(m))
  }

  /** Arms a timer with the delay, if there is one. */
  function ArmEvents(delay: Option<real>): (es: seq<Event>)
    ensures forall e :: e in es ==> Rank(e) == SleepTimerStep
  {
    match delay case None => [] case Some(d) => [ArmTimer(d)]
  }

  /** setupSleepTimer. */
  function TimerEvents(timer: Option<real>, autonav: Toggle, q: TimerRequest): (es: seq<Event>)
    ensures forall e :: e in es ==> Rank(e) == SleepTimerStep
  {
    CancelEvents(timer) + ScheduleEvents(autonav, q)
  }

  /** A preset as the steps read it: the speed, the quality target, the view and captions modes
      and the sleep-timer request. */
  datatype Plan = Plan(speed: Option<real>, quality: Target, viewMode: string, captions: string, timer: TimerRequest)

  function PlanOf(p: Preset): (plan: Plan)
    ensures plan.speed == p.speed && plan.viewMode == p.viewMode && plan.captions == p.captions
  {
    Plan(p.speed, TargetOf(p.quality), p.viewMode, p.captions, TimerRequestOf(p.sleepTimer))
  }

  /** The events a step emits from a page state, when it does not raise. */
  function StepEvents(env: Env, st: PageState, s: Step, p: Plan): (es: seq<Event>)
    ensures forall e :: e in es ==> Rank(e) == s
  {
    match s
    case SpeedStep => SpeedEvents(p.speed)
    case QualityStep => QualityEvents(env.settings, p.quality)
    case ViewModeStep => ViewModeEvents(env, st.layout, p.viewMode)
    case CaptionsStep => CaptionsEvents(st.subtitles, p.captions)
    case SleepTimerStep => TimerEvents(st.timer, st.autonav, p.timer)
  }

  /** A raising step contributes nothing; the orchestrator's catch swallows the error. */
  function Run(faults: set<Step>, s: Step, es: seq<Event>): seq<Event> {
    if s in faults then [] else es
  }

  /** The steps run one after the other, each on the page the previous ones left. */
  function RunSteps(env: Env, faults: set<Step>, st: PageState, p: Plan, steps: seq<Step>): seq<Event>
    decreases |steps|
  {
    if steps == [] then []
    else
      var es := Run(faults, steps[0], StepEvents(env, st, steps[0], p));
      es + RunSteps(env, faults, Replay(st, es), p, steps[1..])
  }

  /** The events of applyPreset once the player check has passed, for a preset as read. */
  function PlanEvents(env: Env, faults: set<Step>, st: PageState, p: Plan): seq<Event> {
    RunSteps(env, faults, st, p, StepOrder)
  }

  /** The events of applyPreset once the player check has passed. */
  function PresetEvents(env: Env, faults: set<Step>, st: PageState, p: Preset): seq<Event> {
    PlanEvents(env, faults, st, PlanOf(p))
  }

  // ---------------------------------------------------------------- properties of the steps

  /** The size button is clicked at most once, and exactly when a layout exists whose theater
      attribute differs from the one asked for. */
  lemma ViewModeSizeClick(env: Env, layout: Layout, mode: string)
    ensures ClickSize in ViewModeEvents(env, layout, mode) <==>
              env.hasSizeButton && layout.Flexy? && ((mode == "default" && layout.theater) || (mode == "theater" && !layout.theater))
    ensures ClickSize in ViewModeEvents(env, layout, mode) ==> ViewModeEvents(env, layout, mode) == [ClickSize]
  {
  }

  /** default or theater mode, with the layout and size button present, ends in that layout. */
  lemma ViewModeReaches(env: Env, st: PageState, mode: string)
    requires mode == "default" || mode == "theater"
    requires env.hasSizeButton && st.layout.Flexy?
    ensures Replay(st, ViewModeEvents(env, st.layout, mode)).layout == Flexy(mode == "theater")
  {
  }

  /** Asking for the layout the page already has issues no click. */
  lemma ViewModeAlreadyThere(env: Env, layout: Layout, mode: string)
    requires (mode == "default" && layout != Flexy(true)) || (mode == "theater" && layout == Flexy(true))
    ensures ViewModeEvents(env, layout, mode) == []
  {
  }

  /** The subtitles button is clicked exactly when its pressed state differs from the mode
      asked for, at most once, and never for a mode other than "on" and "off". */
  lemma CaptionsClick(subtitles: Toggle, mode: string)
    ensures ClickSubtitles in CaptionsEvents(subtitles, mode) <==>
              subtitles.Present? && ((mode == "on" && !subtitles.on) || (mode == "off" && subtitles.on))
    ensures CaptionsEvents(subtitles, mode) == [] || CaptionsEvents(subtitles, mode) == [ClickSubtitles]
  {
  }

  /** After captions "on" or "off" the button's pressed state is the one asked for, and
      applying the same mode again clicks nothing: twice in a row clicks at most once. */
  lemma CaptionsTwice(st: PageState, mode: string)
    ensures var st1 := Replay(st, CaptionsEvents(st.subtitles, mode));
            && (st.subtitles.Present? && (mode == "on" || mode == "off") ==> st1.subtitles == Present(mode == "on"))
            && CaptionsEvents(st1.subtitles, mode) == []
            && |CaptionsEvents(st.subtitles, mode) + CaptionsEvents(st1.subtitles, mode)| <= 1
  {
    var es := CaptionsEvents(st.subtitles, mode);
    if es != [] {
      assert es == [ClickSubtitles];
      assert Replay(st, es) == Next(st, ClickSubtitles);
    }
  }

  /** maybeDisableAutoplay leaves the autoplay toggle unchecked, or absent if it was. */
  lemma AutonavTurnsOff(st: PageState)
    ensures var st1 := Replay(st, AutonavEvents(st.autonav));
            && st1.autonav == (if st.autonav.Present? then Present(false) else Absent)
            && st1.timer == st.timer
            && AutonavEvents(st1.autonav) == []
  {
    if st.autonav == Present(true) {
      assert Replay(st, [ClickAutonav]) == Next(st, ClickAutonav);
    }
  }

  /** Any value other than "", "off" and "end" is read by parseFloat. */
  lemma TimerRequestNumber(spec: string)
    requires spec != "" && spec != "off" && spec != "end"
    ensures TimerRequestOf(spec) == AfterMinutes(ParseDecimal(spec))
  {
  }

  /** "10" asks for ten minutes, that is a 600000 ms timer. */
  lemma TimerRequestTen()
    ensures TimerRequestOf("10") == AfterMinutes(Some(10.0))
    ensures TimerDelay("10") == Some(600000.0)
  {
    assert Decimal(10) == "10" by {
      assert DigitChar(1) == '1' && DigitChar(0) == '0';
      assert Decimal(1) == "1";
    }
    ParseDecimalWhole(10);
  }

  /** A value parseFloat reads as no number, or as a number of minutes that is not positive,
      arms no timer. */
  lemma TimerDelayNone(spec: string)
    requires spec == [] || 'a' <= spec[0] <= 'z' || ParseDecimal(spec) == Some(0.0)
    ensures TimerDelay(spec) == None
  {
    if spec == [] || 'a' <= spec[0] <= 'z' {
      ParseDecimalWord(spec);
    }
  }

  /** On an empty slot, the second part of setupSleepTimer arms at most one timer, exactly the
      one the request asks for, and cancels nothing. */
  lemma ScheduleSlot(st: PageState, q: TimerRequest)
    requires st.timer.None?
    ensures var es := ScheduleEvents(st.autonav, q);
            && Replay(st, es).timer == RequestDelay(q)
            && ArmedAfter(false, es) == Some(RequestDelay(q).Some?)
            && |es| <= 1 && ClearTimer !in es
  {
    var es := ScheduleEvents(st.autonav, q);
    if es != [] {
      assert es == [es[0]];
      assert Replay(st, es) == Next(st, es[0]);
    }
  }

  /** setupSleepTimer cancels the stored timer first, arms at most one, and leaves the slot
      holding exactly the delay the request asks for; it never arms a timer while one is armed. */
  lemma TimerSlot(st: PageState, q: TimerRequest)
    ensures var es := TimerEvents(st.timer, st.autonav, q);
            && Replay(st, es).timer == RequestDelay(q)
            && ArmedAfter(st.timer.Some?, es) == Some(RequestDelay(q).Some?)
            && (es != [] && es[0] == ClearTimer <==> st.timer.Some?)
            && (forall i :: 0 < i < |es| ==> es[i] != ClearTimer)
            && (forall i, j :: 0 <= i < |es| && 0 <= j < |es| && es[i].ArmTimer? && es[j].ArmTimer? ==> i == j)
  {
    var first := CancelEvents(st.timer);
    var rest := ScheduleEvents(st.autonav, q);
    var es := first + rest;
    var st1 := Replay(st, first);
    assert st1 == st.(timer := None) by {
      if st.timer.Some? { assert Replay(st, first) == Next(st, ClearTimer); }
    }
    ReplayAppend(st, first, rest);
    ArmedAppend(st.timer.Some?, first, rest);
    assert ArmedAfter(st.timer.Some?, first) == Some(false);
    ScheduleSlot(st1, q);
    assert st1.autonav == st.autonav;
    forall i | 0 <= i < |es| && i >= |first| ensures es[i] == rest[i - |first|] && es[i] in rest {
    }
    if st.timer.None? {
      assert es == rest;
    }
  }

  /** A ten-minute timer rescheduled to "off" is cancelled: the second call clears the slot and
      arms nothing, so no timer is left to fire. */
  lemma TenThenOff(st: PageState)
    ensures var st1 := Replay(st, TimerEvents(st.timer, st.autonav, TimerRequestOf("10")));
            && st1.timer == Some(600000.0)
            && TimerEvents(st1.timer, st1.autonav, TimerRequestOf("off")) == [ClearTimer]
            && Replay(st1, TimerEvents(st1.timer, st1.autonav, TimerRequestOf("off"))).timer.None?
  {
    TimerRequestTen();
    var ten := TimerRequestOf("10");
    TimerSlot(st, ten);
    var st1 := Replay(st, TimerEvents(st.timer, st.autonav, ten));
    assert TimerRequestOf("off") == NoTimer;
    TimerSlot(st1, NoTimer);
  }

  /** "end" arms no timer and leaves the autoplay toggle unchecked. */
  lemma TimerEndStopsAutoplay(st: PageState)
    ensures var st1 := Replay(st, TimerEvents(st.timer, st.autonav, TimerRequestOf("end")));
            && st1.timer.None?
            && st1.autonav == (if st.autonav.Present? then Present(false) else Absent)
  {
    assert TimerRequestOf("end") == AtEnd;
    TimerSlot(st, AtEnd);
    var first := CancelEvents(st.timer);
    var st0 := Replay(st, first);
    assert st0 == st.(timer := None) by {
      if st.timer.Some? { assert Replay(st, first) == Next(st, ClearTimer); }
    }
    ReplayAppend(st, first, AutonavEvents(st.autonav));
    AutonavTurnsOff(st0);
  }

  /** The quality step changes nothing the other steps read, and closes the menu it opened:
      when the settings button exists the last action is the click outside. */
  lemma QualityInert(st: PageState, settings: Settings, target: Target)
    ensures Replay(st, QualityEvents(settings, target)) == st
    ensures settings.SettingsButton? ==>
              QualityEvents(settings, target)[0] == ClickSettings
              && QualityEvents(settings, target)[|QualityEvents(settings, target)| - 1] == ClickOutside
    ensures forall j: nat :: ClickQualityItem(j) in QualityEvents(settings, target) <==>
              settings.SettingsButton? && FindQualityEntry(settings.rootMenu).Some?
              && Select(target, Mapped(settings.qualityMenu)) == Some(j)
  {
    var es := QualityEvents(settings, target);
    if settings.SettingsButton? && FindQualityEntry(settings.rootMenu).Some? {
      var i := FindQualityEntry(settings.rootMenu).value;
      assert es == [ClickSettings, ClickRootItem(i)] + PickEvents(target, settings.qualityMenu) + [ClickOutside];
    }
    MenuClicksInert(st, es);
  }

  lemma {:induction false} MenuClicksInert(st: PageState, es: seq<Event>)
    requires forall e :: e in es ==> Rank(e) == QualityStep
    ensures Replay(st, es) == st
    decreases |es|
  {
    if es != [] {
      assert es[0] in es;
      assert forall e :: e in es[1..] ==> e in es;
      MenuClicksInert(Next(st, es[0]), es[1..]);
    }
  }

  // ---------------------------------------------------------------- the orchestrator

  /** The state a step reads agrees in two pages. */
  predicate Agree(a: PageState, b: PageState, s: Step) {
    match s
    case SpeedStep => true
    case QualityStep => true
    case ViewModeStep => a.layout == b.layout
    case CaptionsStep => a.subtitles == b.subtitles
    case SleepTimerStep => a.timer == b.timer && a.autonav == b.autonav
  }

  /** The actions of one step leave unchanged all that another step reads. */
  lemma {:induction false} ReplayFrame(st: PageState, es: seq<Event>, t: Step, s: Step)
    requires forall e :: e in es ==> Rank(e) == t
    requires s != t
    ensures Agree(st, Replay(st, es), s)
    decreases |es|
  {
    if es != [] {
      assert es[0] in es;
      assert forall e :: e in es[1..] ==> e in es;
      ReplayFrame(Next(st, es[0]), es[1..], t, s);
    }
  }

  /** Each step's actions computed from the page the orchestrator started with. */
  function Isolated(env: Env, faults: set<Step>, st: PageState, p: Plan, steps: seq<Step>): seq<Event>
    decreases |steps|
  {
    if steps == [] then [] else Run(faults, steps[0], StepEvents(env, st, steps[0], p)) + Isolated(env, faults, st, p, steps[1..])
  }

  lemma {:induction false} RunStepsIsolated(env: Env, faults: set<Step>, st: PageState, st2: PageState, p: Plan, steps: seq<Step>)
    requires forall i, j :: 0 <= i < j < |steps| ==> steps[i] != steps[j]
    requires forall s :: s in steps ==> Agree(st, st2, s)
    ensures RunSteps(env, faults, st2, p, steps) == Isolated(env, faults, st, p, steps)
    decreases |steps|
  {
    if steps != [] {
      var s := steps[0];
      assert s in steps;
      var es := Run(faults, s, StepEvents(env, st2, s, p));
      assert StepEvents(env, st2, s, p) == StepEvents(env, st, s, p);
      forall t | t in steps[1..] ensures Agree(st, Replay(st2, es), t) {
        var k :| 0 <= k < |steps[1..]| && steps[1..][k] == t;
        assert steps[k + 1] == t;
        assert t in steps;
        ReplayFrame(st2, es, s, t);
      }
      RunStepsIsolated(env, faults, st, Replay(st2, es), p, steps[1..]);
    }
  }

  /** The steps do not interact: every step emits what it would emit on the page as it was
      when applyPreset started, since no step changes what another step reads. */
  lemma PresetEventsIsolated(env: Env, faults: set<Step>, st: PageState, p: Plan)
    ensures PlanEvents(env, faults, st, p) ==
              Run(faults, SpeedStep, SpeedEvents(p.speed))
              + Run(faults, QualityStep, QualityEvents(env.settings, p.quality))
              + Run(faults, ViewModeStep, ViewModeEvents(env, st.layout, p.viewMode))
              + Run(faults, CaptionsStep, CaptionsEvents(st.subtitles, p.captions))
              + Run(faults, SleepTimerStep, TimerEvents(st.timer, st.autonav, p.timer))
  {
    RunStepsIsolated(env, faults, st, st, p, StepOrder);
    IsolatedCons(env, faults, st, p, SleepTimerStep, []);
    IsolatedCons(env, faults, st, p, CaptionsStep, [SleepTimerStep]);
    IsolatedCons(env, faults, st, p, ViewModeStep, [CaptionsStep, SleepTimerStep]);
    IsolatedCons(env, faults, st, p, QualityStep, [ViewModeStep, CaptionsStep, SleepTimerStep]);
    IsolatedCons(env, faults, st, p, SpeedStep, [QualityStep, ViewModeStep, CaptionsStep, SleepTimerStep]);
    var g1 := Run(faults, SpeedStep, SpeedEvents(p.speed));
    var g2 := Run(faults, QualityStep, QualityEvents(env.settings, p.quality));
    var g3 := Run(faults, ViewModeStep, ViewModeEvents(env, st.layout, p.viewMode));
    var g4 := Run(faults, CaptionsStep, CaptionsEvents(st.subtitles, p.captions));
    var g5 := Run(faults, SleepTimerStep, TimerEvents(st.timer, st.autonav, p.timer));
    assert Isolated(env, faults, st, p, StepOrder) == g1 + (g2 + (g3 + (g4 + (g5 + []))));
    assert g5 + [] == g5;
    Concat5(g1, g2, g3, g4, g5);
  }

  lemma RunStepsCons(env: Env, faults: set<Step>, st: PageState, p: Plan, s: Step, rest: seq<Step>)
    ensures var es := Run(faults, s, StepEvents(env, st, s, p));
            RunSteps(env, faults, st, p, [s] + rest) == es + RunSteps(env, faults, Replay(st, es), p, rest)
  {
    assert ([s] + rest)[1..] == rest;
  }

  /** The events of applyPreset are its five steps' events, each step run on the page the
      previous steps left. */
  lemma PlanEventsSequence(env: Env, faults: set<Step>, p: Plan, st0: PageState, st1: PageState, st2: PageState, st3: PageState,
                           st4: PageState, st5: PageState, e1: seq<Event>, e2: seq<Event>, e3: seq<Event>,
                           e4: seq<Event>, e5: seq<Event>)
    requires e1 == Run(faults, SpeedStep, StepEvents(env, st0, SpeedStep, p)) && st1 == Replay(st0, e1)
    requires e2 == Run(faults, QualityStep, StepEvents(env, st1, QualityStep, p)) && st2 == Replay(st1, e2)
    requires e3 == Run(faults, ViewModeStep, StepEvents(env, st2, ViewModeStep, p)) && st3 == Replay(st2, e3)
    requires e4 == Run(faults, CaptionsStep, StepEvents(env, st3, CaptionsStep, p)) && st4 == Replay(st3, e4)
    requires e5 == Run(faults, SleepTimerStep, StepEvents(env, st4, SleepTimerStep, p)) && st5 == Replay(st4, e5)
    ensures PlanEvents(env, faults, st0, p) == e1 + e2 + e3 + e4 + e5
    ensures Replay(st0, e1 + e2 + e3 + e4 + e5) == st5
  {
    RunStepsCons(env, faults, st4, p, SleepTimerStep, []);
    RunStepsCons(env, faults, st3, p, CaptionsStep, [SleepTimerStep]);
    RunStepsCons(env, faults, st2, p, ViewModeStep, [CaptionsStep, SleepTimerStep]);
    RunStepsCons(env, faults, st1, p, QualityStep, [ViewModeStep, CaptionsStep, SleepTimerStep]);
    RunStepsCons(env, faults, st0, p, SpeedStep, [QualityStep, ViewModeStep, CaptionsStep, SleepTimerStep]);
    assert PlanEvents(env, faults, st0, p) == e1 + (e2 + (e3 + (e4 + (e5 + []))));
    assert e5 + [] == e5;
    Concat5(e1, e2, e3, e4, e5);
    ReplayAppend(st0, e1, e2);
    ReplayAppend(st0, e1 + e2, e3);
    ReplayAppend(st0, e1 + e2 + e3, e4);
    ReplayAppend(st0, e1 + e2 + e3 + e4, e5);
  }

  lemma ReplayOne(st: PageState, e: Event)
    ensures Replay(st, [e]) == Next(st, e)
  {
    assert [e][1..] == [];
  }

  lemma AppendAssoc(a: seq<Event>, b: seq<Event>, c: seq<Event>)
    ensures a + b + c == a + (b + c)
  {
  }

  lemma Concat6(a: seq<Event>, b: seq<Event>, c: seq<Event>, d: seq<Event>, e: seq<Event>, f: seq<Event>)
    ensures a + b + c + d + e + f == a + (b + c + d + e + f)
  {
  }

  lemma Concat5(a: seq<Event>, b: seq<Event>, c: seq<Event>, d: seq<Event>, e: seq<Event>)
    ensures a + (b + (c + (d + e))) == a + b + c + d + e
  {
  }

  lemma IsolatedCons(env: Env, faults: set<Step>, st: PageState, p: Plan, s: Step, rest: seq<Step>)
    ensures Isolated(env, faults, st, p, [s] + rest) == Run(faults, s, StepEvents(env, st, s, p)) + Isolated(env, faults, st, p, rest)
  {
    assert ([s] + rest)[1..] == rest;
  }

  lemma {:induction false} IsolatedRanks(env: Env, faults: set<Step>, st: PageState, p: Plan, steps: seq<Step>)
    ensures forall e :: e in Isolated(env, faults, st, p, steps) ==> Rank(e) in steps
    decreases |steps|
  {
    if steps != [] {
      IsolatedRanks(env, faults, st, p, steps[1..]);
      assert forall s :: s in steps[1..] ==> s in steps;
    }
  }

  /** Actions in non-decreasing step order. */
  predicate Ordered(es: seq<Event>) {
    forall i, j :: 0 <= i < j < |es| ==> StepIndex(Rank(es[i])) <= StepIndex(Rank(es[j]))
  }

  /** One step's actions followed by ordered actions of later steps are ordered. */
  lemma OrderedConcat(g: seq<Event>, rest: seq<Event>, s: Step, later: seq<Step>)
    requires forall e :: e in g ==> Rank(e) == s
    requires forall e :: e in rest ==> Rank(e) in later
    requires forall t :: t in later ==> StepIndex(s) < StepIndex(t)
    requires Ordered(rest)
    ensures Ordered(g + rest)
  {
    var es := g + rest;
    forall i, j | 0 <= i < j < |es| ensures StepIndex(Rank(es[i])) <= StepIndex(Rank(es[j])) {
      if j < |g| {
        assert es[i] == g[i] && es[j] == g[j];
        assert g[i] in g && g[j] in g;
      } else if i < |g| {
        assert es[i] == g[i] && g[i] in g;
        assert es[j] == rest[j - |g|] && rest[j - |g|] in rest;
      } else {
        assert es[i] == rest[i - |g|] && es[j] == rest[j - |g|];
      }
    }
  }

  lemma {:induction false} IsolatedOrdered(env: Env, faults: set<Step>, st: PageState, p: Plan, steps: seq<Step>)
    requires forall i, j :: 0 <= i < j < |steps| ==> StepIndex(steps[i]) < StepIndex(steps[j])
    ensures Ordered(Isolated(env, faults, st, p, steps))
    decreases |steps|
  {
    if steps != [] {
      var g := Run(faults, steps[0], StepEvents(env, st, steps[0], p));
      var rest := Isolated(env, faults, st, p, steps[1..]);
      IsolatedRanks(env, faults, st, p, steps[1..]);
      IsolatedOrdered(env, faults, st, p, steps[1..]);
      forall t | t in steps[1..] ensures StepIndex(steps[0]) < StepIndex(t) {
        var k :| 0 <= k < |steps[1..]| && steps[1..][k] == t;
        assert steps[k + 1] == t;
      }
      OrderedConcat(g, rest, steps[0], steps[1..]);
    }
  }

  /** applyPreset acts on the page in the fixed step order: every speed action comes before
      every quality action, which come before the view-mode, captions and timer actions. */
  lemma PresetOrder(env: Env, faults: set<Step>, st: PageState, p: Plan)
    ensures var es := PlanEvents(env, faults, st, p);
            forall i, j :: 0 <= i < j < |es| ==> StepIndex(Rank(es[i])) <= StepIndex(Rank(es[j]))
  {
    RunStepsIsolated(env, faults, st, st, p, StepOrder);
    IsolatedOrdered(env, faults, st, p, StepOrder);
  }

  /** The actions of a sequence that do not belong to step s. */
  function Drop(es: seq<Event>, s: Step): (r: seq<Event>)
    ensures forall e :: e in r <==> e in es && Rank(e) != s
    decreases |es|
  {
    if es == [] then [] else (if Rank(es[0]) == s then [] else [es[0]]) + Drop(es[1..], s)
  }

  lemma {:induction false} DropAppend(a: seq<Event>, b: seq<Event>, s: Step)
    ensures Drop(a + b, s) == Drop(a, s) + Drop(b, s)
    decreases |a|
  {
    if a != [] {
      assert (a + b)[0] == a[0];
      assert (a + b)[1..] == a[1..] + b;
      DropAppend(a[1..], b, s);
    } else {
      assert a + b == b;
    }
  }

  lemma {:induction false} DropAll(es: seq<Event>, s: Step, t: Step)
    requires forall e :: e in es ==> Rank(e) == t
    ensures Drop(es, s) == if s == t then [] else es
    decreases |es|
  {
    if es != [] {
      assert es[0] in es;
      assert forall e :: e in es[1..] ==> e in es;
      DropAll(es[1..], s, t);
      assert es == [es[0]] + es[1..];
    }
  }

  lemma {:induction false} IsolatedFault(env: Env, faults: set<Step>, st: PageState, p: Plan, steps: seq<Step>, s: Step)
    ensures Isolated(env, faults + {s}, st, p, steps) == Drop(Isolated(env, faults, st, p, steps), s)
    decreases |steps|
  {
    if steps != [] {
      var t := steps[0];
      var g := Run(faults, t, StepEvents(env, st, t, p));
      DropAppend(g, Isolated(env, faults, st, p, steps[1..]), s);
      DropAll(g, s, t);
      IsolatedFault(env, faults, st, p, steps[1..], s);
    }
  }

  /** A step whose host calls raise loses exactly its own actions: every other step still runs
      and emits what it would have emitted. */
  lemma FaultContained(env: Env, faults: set<Step>, st: PageState, p: Plan, s: Step)
    ensures PlanEvents(env, faults + {s}, st, p) == Drop(PlanEvents(env, faults, st, p), s)
    ensures forall e :: e in PlanEvents(env, faults + {s}, st, p) ==> Rank(e) != s
  {
    RunStepsIsolated(env, faults, st, st, p, StepOrder);
    RunStepsIsolated(env, faults + {s}, st, st, p, StepOrder);
    IsolatedFault(env, faults, st, p, StepOrder, s);
  }

  /**
   * The end-to-end run: speed 2, quality "max", theater, captions off, no sleep timer, on a page
   * in the default layout whose quality submenu offers 1080, 720 and 480 and whose captions are
   * on: set the rate to 2, open the menu, pick 1080, close the menu, toggle to theater, click
   * captions once, and arm no timer.
   */
  lemma EndToEndExample(env: Env, st: PageState, p: Preset, k: nat)
    requires env.hasSizeButton
    requires env.settings.SettingsButton? && FindQualityEntry(env.settings.rootMenu) == Some(k)
    requires |env.settings.qualityMenu| == 3
    requires Resolution(env.settings.qualityMenu[0]) == 1080
    requires Resolution(env.settings.qualityMenu[1]) == 720
    requires Resolution(env.settings.qualityMenu[2]) == 480
    requires st.layout == Flexy(false) && st.subtitles == Present(true) && st.timer.None?
    requires p.speed == Some(2.0) && p.quality == "max" && p.viewMode == "theater"
    requires p.captions == "off" && p.sleepTimer == "off"
    ensures PresetEvents(env, {}, st, p) ==
              [SetRate(2.0), ClickSettings, ClickRootItem(k), ClickQualityItem(0), ClickOutside, ClickSize, ClickSubtitles]
    ensures Replay(st, PresetEvents(env, {}, st, p)) == st.(rate := 2.0, layout := Flexy(true), subtitles := Present(false))
  {
    ExamplePlan(p);
    ExamplePick(env.settings.qualityMenu);
    ExampleQuality(env.settings, k);
    EndToEndPlan(env, st, k);
    EndToEndReplay(st, k);
    ExampleEvents(k);
  }

  /** The example preset as the steps read it. */
  lemma ExamplePlan(p: Preset)
    requires p.speed == Some(2.0) && p.quality == "max" && p.viewMode == "theater"
    requires p.captions == "off" && p.sleepTimer == "off"
    ensures PlanOf(p) == Plan(Some(2.0), MaxTarget, "theater", "off", NoTimer)
  {
  }

  /** The example's quality step: the highest entry, listed first, is picked. */
  lemma ExampleQuality(settings: Settings, k: nat)
    requires settings.SettingsButton? && FindQualityEntry(settings.rootMenu) == Some(k)
    requires Select(MaxTarget, Mapped(settings.qualityMenu)) == Some(0)
    ensures QualityEvents(settings, MaxTarget) == [ClickSettings, ClickRootItem(k), ClickQualityItem(0), ClickOutside]
  {
    assert PickEvents(MaxTarget, settings.qualityMenu) == [ClickQualityItem(0)];
  }

  lemma ExamplePick(menu: seq<string>)
    requires |menu| == 3
    requires Resolution(menu[0]) == 1080 && Resolution(menu[1]) == 720 && Resolution(menu[2]) == 480
    ensures Select(MaxTarget, Mapped(menu)) == Some(0)
  {
    var m := Mapped(menu);
    assert m[0].q == 1080 && m[1].q == 720 && m[2].q == 480;
    forall j | 0 < j < |m| ensures m[j].q < m[0].q {
      assert j == 1 || j == 2;
    }
    SelectFirstHighest(m);
  }

  lemma ExampleEvents(k: nat)
    ensures [SetRate(2.0)] + [ClickSettings, ClickRootItem(k), ClickQualityItem(0), ClickOutside] + [ClickSize] + [ClickSubtitles]
            == [SetRate(2.0), ClickSettings, ClickRootItem(k), ClickQualityItem(0), ClickOutside, ClickSize, ClickSubtitles]
  {
  }

  lemma EndToEndPlan(env: Env, st: PageState, k: nat)
    requires env.hasSizeButton
    requires env.settings.SettingsButton? && FindQualityEntry(env.settings.rootMenu) == Some(k)
    requires QualityEvents(env.settings, MaxTarget) == [ClickSettings, ClickRootItem(k), ClickQualityItem(0), ClickOutside]
    requires st.layout == Flexy(false) && st.subtitles == Present(true) && st.timer.None?
    ensures PlanEvents(env, {}, st, Plan(Some(2.0), MaxTarget, "theater", "off", NoTimer)) ==
              [SetRate(2.0)] + [ClickSettings, ClickRootItem(k), ClickQualityItem(0), ClickOutside] + [ClickSize] + [ClickSubtitles]
  {
    var plan := Plan(Some(2.0), MaxTarget, "theater", "off", NoTimer);
    PresetEventsIsolated(env, {}, st, plan);
    var g1 := [SetRate(2.0)];
    var g2 := [ClickSettings, ClickRootItem(k), ClickQualityItem(0), ClickOutside];
    var g3 := [ClickSize];
    var g4 := [ClickSubtitles];
    assert Run({}, SpeedStep, SpeedEvents(plan.speed)) == g1;
    assert Run({}, QualityStep, QualityEvents(env.settings, plan.quality)) == g2;
    assert Run({}, ViewModeStep, ViewModeEvents(env, st.layout, plan.viewMode)) == g3;
    assert Run({}, CaptionsStep, CaptionsEvents(st.subtitles, plan.captions)) == g4;
    assert Run({}, SleepTimerStep, TimerEvents(st.timer, st.autonav, plan.timer)) == [];
    assert PlanEvents(env, {}, st, plan) == g1 + g2 + g3 + g4 + [];
    assert g1 + g2 + g3 + g4 + [] == g1 + g2 + g3 + g4;
  }

  /** What the example's actions make of the page. */
  lemma EndToEndReplay(st: PageState, k: nat)
    requires st.layout == Flexy(false) && st.subtitles == Present(true)
    ensures Replay(st, [SetRate(2.0)] + [ClickSettings, ClickRootItem(k), ClickQualityItem(0), ClickOutside] + [ClickSize] + [ClickSubtitles])
              == st.(rate := 2.0, layout := Flexy(true), subtitles := Present(false))
  {
    var g1 := [SetRate(2.0)];
    var g2 := [ClickSettings, ClickRootItem(k), ClickQualityItem(0), ClickOutside];
    var g3 := [ClickSize];
    var g4 := [ClickSubtitles];
    var st1 := st.(rate := 2.0);
    var st3 := st1.(layout := Flexy(true));
    ReplayOne(st, SetRate(2.0));
    MenuClicksInert(st1, g2);
    ReplayOne(st1, ClickSize);
    ReplayOne(st3, ClickSubtitles);
    ReplayAppend(st, g1, g2);
    ReplayAppend(st, g1 + g2, g3);
    ReplayAppend(st, g1 + g2 + g3, g4);
  }

  // ---------------------------------------------------------------- the page object

  /**
   * The page with the script injected: the state the steps change, the install flag
   * window.__ytp_applyPreset and the log of actions taken. Valid says the state is what the
   * log made of the initial page and that no action ever armed a second timer.
   */
  class Page {
    const env: Env
    const faults: set<Step>
    ghost const initial: PageState
    var rate: real
    var layout: Layout
    var subtitles: Toggle
    var autonav: Toggle
    var sleepTimerId: Option<real>
    var installed: bool
    var events: seq<Event>

    function State(): PageState
      reads this
    {
      PageState(rate, layout, subtitles, autonav, sleepTimerId)
    }

    ghost predicate Valid()
      reads this
    {
      && initial.timer.None?
      && State() == Replay(initial, events)
      && ArmedAfter(false, events) == Some(sleepTimerId.Some?)
    }

    constructor(env: Env, faults: set<Step>, rate: real, layout: Layout, subtitles: Toggle, autonav: Toggle)
      ensures Valid()
      ensures this.env == env && this.faults == faults && State() == PageState(rate, layout, subtitles, autonav, None)
      ensures !installed && events == []
    {
      this.env := env;
      this.faults := faults;
      this.initial := PageState(rate, layout, subtitles, autonav, None);
      this.rate := rate;
      this.layout := layout;
      this.subtitles := subtitles;
      this.autonav := autonav;
      this.sleepTimerId := None;
      this.installed := false;
      this.events := [];
    }

    /** Carries out one action. */
    method Perform(e: Event)
      requires Valid()
      requires !(e.ArmTimer? && sleepTimerId.Some?)
      modifies this
      ensures Valid()
      ensures events == old(events) + [e] && State() == Next(old(State()), e)
      ensures installed == old(installed)
    {
      ghost var before := State();
      match e {
        case SetRate(r) => rate := r;
        case ClickSize => if layout.Flexy? { layout := Flexy(!layout.theater); }
        case ClickSubtitles => if subtitles.Present? { subtitles := Present(!subtitles.on); }
        case ClickAutonav => if autonav.Present? { autonav := Present(!autonav.on); }
        case ClearTimer => sleepTimerId := None;
        case ArmTimer(d) => sleepTimerId := Some(d);
        case _ =>
      }
      ReplayAppend(initial, events, [e]);
      ArmedAppend(false, events, [e]);
      assert Replay(before, [e]) == Next(before, e);
      events := events + [e];
    }

    /** setSpeed. */
    method SetSpeed(speed: Option<real>)
      requires Valid()
      modifies this
      ensures Valid() && installed == old(installed)
      ensures events == old(events) + Run(faults, SpeedStep, SpeedEvents(speed))
      ensures State() == Replay(old(State()), Run(faults, SpeedStep, SpeedEvents(speed)))
    {
      if SpeedStep in faults || speed.None? {
        return;
      }
      Perform(SetRate(speed.value));
    }

    /** setQuality; raised reports an error thrown out of the step. */
    method SetQuality(target: string) returns (raised: bool)
      requires Valid()
      modifies this
      ensures Valid() && installed == old(installed)
      ensures raised <==> QualityStep in faults
      ensures events == old(events) + Run(faults, QualityStep, QualityEvents(env.settings, TargetOf(target)))
      ensures State() == Replay(old(State()), Run(faults, QualityStep, QualityEvents(env.settings, TargetOf(target))))
    {
      ghost var st := State();
      ghost var log := events;
      ghost var t := TargetOf(target);
      MenuClicksInert(st, QualityEvents(env.settings, t));
      if QualityStep in faults {
        return true;
      }
      raised := false;
      match env.settings {
        case NoSettingsButton =>
          assert log + [] == log;
        case SettingsButton(root, options) =>
          Perform(ClickSettings);
          var entry := FindQualityEntry(root);
          if entry.None? {
            Perform(ClickOutside);
            assert events == log + [ClickSettings, ClickOutside];
            return;
          }
          Perform(ClickRootItem(entry.value));
          ghost var menuOpen := events;
          assert menuOpen == log + [ClickSettings, ClickRootItem(entry.value)];
          var mapped := Mapped(options);
          var chosen := Select(TargetOf(target), mapped);
          ghost var pick := PickEvents(t, options);
          if chosen.Some? {
            Perform(ClickQualityItem(chosen.value));
            assert events == menuOpen + pick;
          } else {
            assert events == menuOpen + pick;
          }
          Perform(ClickOutside);
          AppendAssoc(log, [ClickSettings, ClickRootItem(entry.value)], pick);
          AppendAssoc(log, [ClickSettings, ClickRootItem(entry.value)] + pick, [ClickOutside]);
      }
    }

    /** setViewMode; raised reports an error thrown out of the step. */
    method SetViewMode(mode: string) returns (raised: bool)
      requires Valid()
      modifies this
      ensures Valid() && installed == old(installed)
      ensures raised <==> ViewModeStep in faults
      ensures events == old(events) + Run(faults, ViewModeStep, ViewModeEvents(env, old(layout), mode))
      ensures State() == Replay(old(State()), Run(faults, ViewModeStep, ViewModeEvents(env, old(layout), mode)))
    {
      ghost var st := State();
      if ViewModeStep in faults {
        return true;
      }
      raised := false;
      if mode == "default" && layout.Flexy? && layout.theater {
        if env.hasSizeButton {
          Perform(ClickSize);
        }
        return;
      }
      if mode == "theater" && layout.Flexy? && !layout.theater {
        if env.hasSizeButton {
          Perform(ClickSize);
        }
        return;
      }
      if mode == "fullscreen" {
        if env.hasFullscreenButton {
          Perform(ClickFullscreen);
        }
        if !env.inFullscreen {
          Perform(RequestFullscreen);
        }
        ReplayAppend(st, if env.hasFullscreenButton then [ClickFullscreen] else [],
                     if !env.inFullscreen then [RequestFullscreen] else []);
        return;
      }
      if mode == "pip" {
        if env.pipEnabled && !env.videoDisablesPip {
          Perform(RequestPip);
        }
      }
    }

    /** setCaptions; raised reports an error thrown out of the step. */
    method SetCaptions(mode: string) returns (raised: bool)
      requires Valid()
      modifies this
      ensures Valid() && installed == old(installed)
      ensures raised <==> CaptionsStep in faults
      ensures events == old(events) + Run(faults, CaptionsStep, CaptionsEvents(old(subtitles), mode))
      ensures State() == Replay(old(State()), Run(faults, CaptionsStep, CaptionsEvents(old(subtitles), mode)))
    {
      if CaptionsStep in faults {
        return true;
      }
      raised := false;
      if subtitles.Absent? {
        return;
      }
      var pressed := subtitles.on;
      if mode == "on" && !pressed {
        Perform(ClickSubtitles);
      }
      if mode == "off" && pressed {
        Perform(ClickSubtitles);
      }
    }

    /** maybeDisableAutoplay. */
    method MaybeDisableAutoplay()
      requires Valid()
      modifies this
      ensures Valid() && installed == old(installed)
      ensures events == old(events) + AutonavEvents(old(autonav))
      ensures State() == Replay(old(State()), AutonavEvents(old(autonav)))
    {
      if autonav.Absent? {
        return;
      }
      var checked := autonav.on;
      if checked {
        Perform(ClickAutonav);
      }
    }

    /** setupSleepTimer; raised reports an error thrown out of the step. */
    method SetupSleepTimer(spec: string) returns (raised: bool)
      requires Valid()
      modifies this
      ensures Valid() && installed == old(installed)
      ensures raised <==> SleepTimerStep in faults
      ensures events == old(events) + Run(faults, SleepTimerStep, TimerEvents(old(sleepTimerId), old(autonav), TimerRequestOf(spec)))
      ensures State() == Replay(old(State()), Run(faults, SleepTimerStep, TimerEvents(old(sleepTimerId), old(autonav), TimerRequestOf(spec))))
    {
      ghost var log := events;
      ghost var q := TimerRequestOf(spec);
      ghost var first := CancelEvents(sleepTimerId);
      ghost var rest := ScheduleEvents(autonav, q);
      if SleepTimerStep in faults {
        return true;
      }
      raised := false;
      CancelSleepTimer();
      ScheduleSleepTimer(spec);
      AppendAssoc(log, first, rest);
      ReplayAppend(old(State()), first, rest);
    }

    /** The first part of setupSleepTimer: clearTimeout of the stored id, and the slot reset. */
    method CancelSleepTimer()
      requires Valid()
      modifies this
      ensures Valid() && installed == old(installed) && sleepTimerId.None?
      ensures events == old(events) + CancelEvents(old(sleepTimerId))
      ensures State() == Replay(old(State()), CancelEvents(old(sleepTimerId)))
    {
      if sleepTimerId.Some? {
        ghost var st := State();
        Perform(ClearTimer);
        ReplayOne(st, ClearTimer);
      } else {
        assert old(events) + [] == old(events);
      }
    }

    /** The rest of setupSleepTimer, once the slot is empty. */
    method ScheduleSleepTimer(spec: string)
      requires Valid() && sleepTimerId.None?
      modifies this
      ensures Valid() && installed == old(installed)
      ensures events == old(events) + ScheduleEvents(old(autonav), TimerRequestOf(spec))
      ensures State() == Replay(old(State()), ScheduleEvents(old(autonav), TimerRequestOf(spec)))
    {
      if spec == "" || spec == "off" {
        assert old(events) + [] == old(events);
        return;
      }
      if spec == "end" {
        MaybeDisableAutoplay();
        return;
      }
      var minutes := ParseDecimal(spec);
      TimerRequestNumber(spec);
      ArmTimerFor(minutes);
    }

    /** setTimeout for a number of minutes read from the sleep-timer value, when it is a
        positive number; the slot is empty here. */
    method ArmTimerFor(minutes: Option<real>)
      requires Valid() && sleepTimerId.None?
      modifies this
      ensures Valid() && installed == old(installed)
      ensures events == old(events) + ArmEvents(MinutesDelay(minutes))
      ensures State() == Replay(old(State()), ArmEvents(MinutesDelay(minutes)))
    {
      if minutes.Some? && minutes.value > 0.0 {
        ghost var st := State();
        Perform(ArmTimer(minutes.value * 60.0 * 1000.0));
        ReplayOne(st, ArmTimer(minutes.value * 60.0 * 1000.0));
      }
    }

    /** window.__ytp_applyPreset: fails with the player check's error when the page has no video
      element and then does nothing else; otherwise runs the five steps in order, swallowing
      what they raise. */
    method ApplyPreset(p: Preset) returns (r: Outcome)
      requires Valid()
      modifies this
      ensures Valid() && installed == old(installed)
      ensures r == if env.hasVideo then Pass else Fail("No video element found")
      ensures !env.hasVideo ==> events == old(events) && State() == old(State())
      ensures env.hasVideo ==> events == old(events) + PresetEvents(env, faults, old(State()), p)
      ensures env.hasVideo ==> State() == Replay(old(State()), PresetEvents(env, faults, old(State()), p))
    {
      if !env.hasVideo {
        return Fail("No video element found");
      }
      ghost var st0 := State();
      ghost var log := events;
      ghost var plan := PlanOf(p);
      SetSpeed(p.speed);
      ghost var e1 := Run(faults, SpeedStep, SpeedEvents(p.speed));
      ghost var st1 := State();
      var raised := SetQuality(p.quality);
      ghost var e2 := Run(faults, QualityStep, QualityEvents(env.settings, plan.quality));
      ghost var st2 := State();
      raised := SetViewMode(p.viewMode);
      ghost var e3 := Run(faults, ViewModeStep, ViewModeEvents(env, st2.layout, p.viewMode));
      ghost var st3 := State();
      raised := SetCaptions(p.captions);
      ghost var e4 := Run(faults, CaptionsStep, CaptionsEvents(st3.subtitles, p.captions));
      ghost var st4 := State();
      raised := SetupSleepTimer(p.sleepTimer);
      ghost var e5 := Run(faults, SleepTimerStep, TimerEvents(st4.timer, st4.autonav, plan.timer));
      ghost var st5 := State();
      assert e2 == Run(faults, QualityStep, StepEvents(env, st1, QualityStep, plan));
      assert e5 == Run(faults, SleepTimerStep, StepEvents(env, st4, SleepTimerStep, plan));
      PlanEventsSequence(env, faults, plan, st0, st1, st2, st3, st4, st5, e1, e2, e3, e4, e5);
      Concat6(log, e1, e2, e3, e4, e5);
      return Pass;
    }

    /** The injected script: defines window.__ytp_applyPreset unless it is already defined, so a
        second injection changes nothing. */
    method Install()
      modifies this
      ensures installed
      ensures events == old(events) && State() == old(State())
      ensures Valid() <==> old(Valid())
    {
      if installed {
        return;
      }
      installed := true;
    }

    /** The popup's call window.__ytp_applyPreset && window.__ytp_applyPreset(preset): None when
        the entry point is not installed, otherwise the outcome of applying the preset. */
    method Invoke(p: Preset) returns (r: Option<Outcome>)
      requires Valid()
      modifies this
      ensures Valid() && installed == old(installed)
      ensures !installed ==> r.None? && events == old(events) && State() == old(State())
      ensures installed && env.hasVideo ==>
                r == Some(Pass) && events == old(events) + PresetEvents(env, faults, old(State()), p)
      ensures installed && !env.hasVideo ==>
                r == Some(Fail("No video element found")) && events == old(events)
    {
      if !installed {
        return None;
      }
      var outcome := ApplyPreset(p);
      r := Some(outcome);
    }
  }
}
