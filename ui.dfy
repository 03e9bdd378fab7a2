/** The page and screensaver machine of the user interface (src/ui.cpp).

    The state the C++ class updates in place is the class `UserInterface`
    below; the pure functions `Press` and `Tick` say what one button press
    and one scheduling tick do to that state, and the lemmas state what the
    machine promises over several of them. Drawing is not modelled: a tick
    returns which renderer it would call, if any.
 */
module UI {
  import opened Agent

  /** The page a press moves to while the display is on: the fixed cycle
      HOME, WIFI, TIME, ELECTRICITY, GAS, where GAS (the default branch of
      the switch) goes back to HOME. */
  function Next(p: Page): Page
  {
    match p
    case Home => Wifi
    case Wifi => Time
    case Time => Electricity
    case Electricity => Gas
    case _ => Home
  }

  /** `Next` moves one step along the declaration order, wrapping after the
      fifth page. */
  lemma NextIsSuccessorInDeclarationOrder(p: Page)
    ensures Ordinal(Next(p)) == (Ordinal(p) + 1) % 5
  {
  }

  /** The page reached after `n` presses with the display on. */
  function Advance(p: Page, n: nat): Page
  {
    if n == 0 then p else Next(Advance(p, n - 1))
  }

  lemma {:induction false} AdvanceMovesAlongOrder(p: Page, n: nat)
    ensures Ordinal(Advance(p, n)) == (Ordinal(p) + n) % 5
  {
    if n > 0 {
      AdvanceMovesAlongOrder(p, n - 1);
      NextIsSuccessorInDeclarationOrder(Advance(p, n - 1));
    }
  }

  /** The page cycle has length exactly five: `n` presses come back to the
      starting page if and only if `n` is a multiple of five. */
  lemma CycleOfFive(p: Page, n: nat)
    ensures Advance(p, n) == p <==> n % 5 == 0
  {
    AdvanceMovesAlongOrder(p, n);
    OrdinalInjective(Advance(p, n), p);
  }

  /** The fields of `UserInterface` that its methods assign. */
  datatype UiState = UiState(
    currentPage: Page,
    displayOn: bool,
    buttonPressedTime: Millis,
    lastRenderingTime: Millis)

  /** The state the constructor leaves. */
  const Initial: UiState := UiState(Home, false, 0, 0)

  /** One confirmed press, whose own clock reading is `clock`. */
  function Press(s: UiState, clock: Millis): UiState
  {
    var s' := s.(buttonPressedTime := clock);
    if s'.displayOn then s'.(currentPage := Next(s'.currentPage))
    else s'.(displayOn := true, currentPage := Home)
  }

  /** Every press records its time and leaves the display on; with the
      display on it moves to the next page, with the display off it only
      wakes the display and shows HOME, whatever page was current. */
  lemma PressRule(s: UiState, clock: Millis)
    ensures Press(s, clock).buttonPressedTime == clock
    ensures Press(s, clock).displayOn
    ensures s.displayOn ==> Press(s, clock).currentPage == Next(s.currentPage)
    ensures !s.displayOn ==> Press(s, clock).currentPage == Home
    ensures Press(s, clock).lastRenderingTime == s.lastRenderingTime
  {
  }

  /** A series of presses at the given clock readings. */
  function Presses(s: UiState, clocks: seq<Millis>): UiState
    decreases |clocks|
  {
    if clocks == [] then s else Press(Presses(s, clocks[..|clocks| - 1]), clocks[|clocks| - 1])
  }

  /** Presses with the display on advance the page once each. */
  lemma {:induction false} PressesWhileOnAdvance(s: UiState, clocks: seq<Millis>)
    requires s.displayOn
    ensures Presses(s, clocks).displayOn
    ensures Presses(s, clocks).currentPage == Advance(s.currentPage, |clocks|)
    decreases |clocks|
  {
    if clocks != [] {
      PressesWhileOnAdvance(s, clocks[..|clocks| - 1]);
    }
  }

  /** Five presses with the display on return to the starting page, and no
      fewer do. */
  lemma FivePressesReturn(s: UiState, clocks: seq<Millis>)
    requires s.displayOn && 0 < |clocks| <= 5
    ensures Presses(s, clocks).currentPage == s.currentPage <==> |clocks| == 5
  {
    PressesWhileOnAdvance(s, clocks);
    CycleOfFive(s.currentPage, |clocks|);
  }

  /** A press on a dark display does not count as a page step: after the
      waking press, the remaining presses start from HOME. */
  lemma {:induction false} WakingPressDoesNotAdvance(s: UiState, clocks: seq<Millis>)
    requires !s.displayOn && clocks != []
    ensures Presses(s, clocks).currentPage == Advance(Home, |clocks| - 1)
    decreases |clocks|
  {
    if |clocks| > 1 {
      WakingPressDoesNotAdvance(s, clocks[..|clocks| - 1]);
    }
  }

  /** The page renderers the display loop can call. */
  datatype Renderer = HomeRenderer | WifiRenderer | TimeRenderer | ElectricityRenderer | GasRenderer

  /** What a tick does to the display: nothing, clear it only (screensaver),
      or clear it and draw with one renderer. */
  datatype Repaint = Skip | Blank | Show(renderer: Renderer)

  /** The renderer the display loop's switch selects; the default branch is
      HOME's. */
  function RendererFor(p: Page): Renderer
  {
    match p
    case Wifi => WifiRenderer
    case Time => TimeRenderer
    case Electricity => ElectricityRenderer
    case Gas => GasRenderer
    case _ => HomeRenderer
  }

  /** The page each renderer draws. */
  function PageDrawnBy(r: Renderer): Page
  {
    match r
    case HomeRenderer => Home
    case WifiRenderer => Wifi
    case TimeRenderer => Time
    case ElectricityRenderer => Electricity
    case GasRenderer => Gas
  }

  /** Every page is drawn by its own renderer. */
  lemma RendererDrawsItsPage(p: Page, r: Renderer)
    ensures PageDrawnBy(RendererFor(p)) == p
    ensures RendererFor(PageDrawnBy(r)) == r
  {
  }

  datatype TickResult = TickResult(state: UiState, repaint: Repaint)

  /** One call of the display loop at clock reading `now`; `press` is the
      clock reading of the confirmed press this tick, if the button's
      stabilizer fired. */
  function Tick(s: UiState, screensaverTimeout: Millis, displayRefreshInterval: Millis,
                now: Millis, press: Option<Millis>): TickResult
  {
    var pressed := if press.Some? then Press(s, press.value) else s;
    var on := !(Elapsed(now, pressed.buttonPressedTime) > screensaverTimeout);
    var t := pressed.(displayOn := on);
    var repaint :=
      if Elapsed(now, t.lastRenderingTime) > displayRefreshInterval then
        if on then Show(RendererFor(t.currentPage)) else Blank
      else Skip;
    TickResult(t, repaint)
  }

  /** After a tick the display is on exactly when no more than the
      screensaver timeout has passed since the last press. */
  lemma TickSetsDisplayByElapsedTime(s: UiState, timeout: Millis, refresh: Millis,
                                     now: Millis, press: Option<Millis>)
    ensures var t := Tick(s, timeout, refresh, now, press).state;
      t.displayOn <==> Elapsed(now, t.buttonPressedTime) <= timeout
  {
  }

  /** Without a press, what a tick does does not depend on whether the
      display was on before: the flag is recomputed, not toggled. */
  lemma TickIgnoresPreviousDisplayFlag(s: UiState, timeout: Millis, refresh: Millis, now: Millis)
    ensures Tick(s.(displayOn := true), timeout, refresh, now, None)
         == Tick(s.(displayOn := false), timeout, refresh, now, None)
  {
  }

  /** A press whose clock reading is the tick's own leaves the display on. */
  lemma PressThisTickKeepsDisplayOn(s: UiState, timeout: Millis, refresh: Millis, now: Millis)
    ensures Tick(s, timeout, refresh, now, Some(now)).state.displayOn
  {
  }

  /** `buttonPressed` reads the clock itself, after the loop has read
      `now`. A press whose reading is one millisecond later than `now`
      looks, to the wrap-safe subtraction, as if it lay almost 2^32 ms in
      the past: the display goes dark for that tick although the press has
      just woken it. */
  lemma LaterPressReadingBlanksDisplay(s: UiState, timeout: Millis, refresh: Millis, now: Millis)
    requires timeout < ClockModulus - 1
    ensures !Tick(s, timeout, refresh, now, Some(Later(now, 1))).state.displayOn
  {
  }

  /** A tick repaints exactly when more than the refresh interval has passed
      since `lastRenderingTime`; a repaint with the display on draws the
      current page, one with the display off only clears. */
  lemma TickRepaintRule(s: UiState, timeout: Millis, refresh: Millis,
                        now: Millis, press: Option<Millis>)
    ensures var r := Tick(s, timeout, refresh, now, press);
      && (r.repaint != Skip <==> Elapsed(now, s.lastRenderingTime) > refresh)
      && (r.repaint != Skip && r.state.displayOn ==> r.repaint == Show(RendererFor(r.state.currentPage)))
      && (r.repaint != Skip && !r.state.displayOn ==> r.repaint == Blank)
  {
  }

  /** Only a press changes the page or the press time, and no tick changes
      `lastRenderingTime`. */
  lemma TickFrame(s: UiState, timeout: Millis, refresh: Millis, now: Millis, press: Option<Millis>)
    ensures var t := Tick(s, timeout, refresh, now, press).state;
      && t.lastRenderingTime == s.lastRenderingTime
      && (press.None? ==> t.currentPage == s.currentPage && t.buttonPressedTime == s.buttonPressedTime)
      && (press.Some? ==> t.currentPage == Press(s, press.value).currentPage
                          && t.buttonPressedTime == press.value)
  {
  }

  /** One scheduling tick: its clock reading and its press, if any. */
  datatype TickInput = TickInput(now: Millis, press: Option<Millis>)

  /** The state after a series of ticks. */
  function Run(s: UiState, timeout: Millis, refresh: Millis, ticks: seq<TickInput>): UiState
    decreases |ticks|
  {
    if ticks == [] then s
    else
      var last := ticks[|ticks| - 1];
      Tick(Run(s, timeout, refresh, ticks[..|ticks| - 1]), timeout, refresh, last.now, last.press).state
  }

  lemma {:induction false} RunKeepsLastRenderingTime(s: UiState, timeout: Millis, refresh: Millis,
                                                     ticks: seq<TickInput>)
    ensures Run(s, timeout, refresh, ticks).lastRenderingTime == s.lastRenderingTime
    decreases |ticks|
  {
    if ticks != [] {
      RunKeepsLastRenderingTime(s, timeout, refresh, ticks[..|ticks| - 1]);
    }
  }

  /** The loop never records when it last drew, so `lastRenderingTime`
      stays 0 from construction on: once the clock has passed the refresh
      interval, every tick repaints (until the clock wraps). */
  lemma RepaintsEveryTickOnceDue(timeout: Millis, refresh: Millis, ticks: seq<TickInput>,
                                 now: Millis, press: Option<Millis>)
    requires refresh < now
    ensures Tick(Run(Initial, timeout, refresh, ticks), timeout, refresh, now, press).repaint != Skip
  {
    RunKeepsLastRenderingTime(Initial, timeout, refresh, ticks);
  }

  /** The user interface object: the button's confirmed presses, the
      screensaver and the display refresh. The display, the renderer, the
      timezone and the two measuring controllers it holds are not modelled. */
  class UserInterface {
    const screensaverTimeout: Millis
    const displayRefreshInterval: Millis
    /** The constructor argument the C++ hands on to the button's
        stabilizer (which is not modelled); the C++ class keeps no field of
        its own for it. */
    const buttonStabilizerInterval: Millis
    var currentPage: Page
    var displayOn: bool
    var buttonPressedTime: Millis
    var lastRenderingTime: Millis

    ghost function State(): UiState
      reads this
    {
      UiState(currentPage, displayOn, buttonPressedTime, lastRenderingTime)
    }

    constructor (screensaverTimeout: Millis := DefaultScreensaverTimeout,
                 displayRefreshInterval: Millis := DefaultDisplayRefreshInterval,
                 buttonStabilizerInterval: Millis := DefaultButtonStabilizerInterval)
      ensures this.screensaverTimeout == screensaverTimeout
      ensures this.displayRefreshInterval == displayRefreshInterval
      ensures this.buttonStabilizerInterval == buttonStabilizerInterval
      ensures currentPage == Home && !displayOn
      ensures buttonPressedTime == 0 && lastRenderingTime == 0
      ensures State() == Initial
    {
      this.screensaverTimeout := screensaverTimeout;
      this.displayRefreshInterval := displayRefreshInterval;
      this.buttonStabilizerInterval := buttonStabilizerInterval;
      currentPage := Home;
      displayOn := false;
      buttonPressedTime := 0;
      lastRenderingTime := 0;
    }

    method SwitchDisplayOff()
      modifies this`displayOn
      ensures !displayOn
      ensures State() == old(State()).(displayOn := false)
    {
      displayOn := false;
    }

    method SwitchDisplayOn()
      modifies this`displayOn
      ensures displayOn
      ensures State() == old(State()).(displayOn := true)
    {
      displayOn := true;
    }

    /** The stabilizer's callback for a confirmed press; `clock` is its own
        reading of the clock. */
    method ButtonPressed(clock: Millis)
      modifies this`currentPage, this`displayOn, this`buttonPressedTime
      ensures buttonPressedTime == clock && displayOn
      ensures old(displayOn) ==> currentPage == Next(old(currentPage))
      ensures !old(displayOn) ==> currentPage == Home
      ensures State() == Press(old(State()), clock)
    {
      buttonPressedTime := clock;
      if displayOn {
        currentPage := Next(currentPage);
      } else {
        displayOn := true;
        currentPage := Home;
      }
    }

    /** One pass of the display loop at clock reading `now`. */
    method Loop(now: Millis, press: Option<Millis>) returns (repaint: Repaint)
      modifies this`currentPage, this`displayOn, this`buttonPressedTime
      ensures displayOn == (Elapsed(now, buttonPressedTime) <= screensaverTimeout)
      ensures press.None? ==> currentPage == old(currentPage) && buttonPressedTime == old(buttonPressedTime)
      ensures repaint != Skip <==> Elapsed(now, lastRenderingTime) > displayRefreshInterval
      ensures lastRenderingTime == old(lastRenderingTime)
      ensures var r := Tick(old(State()), screensaverTimeout, displayRefreshInterval, now, press);
        State() == r.state && repaint == r.repaint
    {
      if press.Some? {
        ButtonPressed(press.value);
      }
      displayOn := !((now - buttonPressedTime) % ClockModulus > screensaverTimeout);
      if (now - lastRenderingTime) % ClockModulus > displayRefreshInterval {
        if displayOn {
          repaint := Show(RendererFor(currentPage));
        } else {
          repaint := Blank;
        }
      } else {
        repaint := Skip;
      }
    }
  }
}
