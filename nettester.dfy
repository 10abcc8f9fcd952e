/** The controller of ct-net-tester.py: the `_running` flag, the three
    "in progress" flags of the waiting commands, event dispatch through the
    button lists, and the commands the buttons are bound to. The gui and net
    objects it drives are those of the `Gui` and `Net` modules. */
module NetTester {
  import opened Strings
  import opened Geometry
  import G = Gui
  import N = Net
  import TP = TextPaging

  /** The settings the controller reads from the configuration file. */
  datatype Config = Config(onlineTestRemote: string, customCommand: string)

  /** Keys the event loop distinguishes. F11 carries the size of the surface
      the display subsystem grants after switching mode. */
  datatype Key = Escape | F11(granted: Size) | OtherKey

  /** One pygame event. `MouseUp` carries what a command it starts would see
      while it waits (`ticks`); `Resize` and `F11` carry the granted surface
      size. */
  datatype Event =
    | Quit
    | Resize(size: Size, granted: Size)
    | KeyDown(key: Key)
    | MouseUp(button: int, pos: Point, ticks: seq<Tick>)
    | OtherEvent

  /** One turn of a wait loop: what the poll of the worker's result returned
      (`None` while it is not published), and whether the user's tap on the
      titlebar menu button was processed by the nested event step. */
  datatype Tick = Tick(poll: Option<seq<string>>, menuTapped: bool)

  /** The three commands that wait for a background result. */
  datatype Job = WifiScanJob | NetCheckJob | CustomCommandJob

  /** The three "in progress" flags. */
  datatype Flags = Flags(wifiScan: bool, checkNet: bool, customCommand: bool)

  const WaitText: seq<string> := ["Bitte warten"]
  const Goodbye: string := "Auf Wiedersehen"
  const MenuLabel: string := "Menü"

  // ---------------------------------------------------------------------
  // Hit testing (check_buttonclick)
  // ---------------------------------------------------------------------

  /** A button is hit when it has bounds and they contain the point. */
  predicate Hits(b: G.Button, pos: Point)
  {
    b.bounds.Some? && b.bounds.value.CollidePoint(pos)
  }

  /** The first button, in list order, that the point hits. */
  function FirstHit(buttons: seq<G.Button>, pos: Point): (r: Option<nat>)
    ensures r.Some? ==> r.value < |buttons| && Hits(buttons[r.value], pos)
    ensures r.Some? ==> forall j :: 0 <= j < r.value ==> !Hits(buttons[j], pos)
    ensures r.None? ==> forall j :: 0 <= j < |buttons| ==> !Hits(buttons[j], pos)
  {
    if |buttons| == 0 then None
    else if Hits(buttons[0], pos) then Some(0)
    else match FirstHit(buttons[1..], pos)
      case Some(k) => Some(k + 1)
      case None => None
  }

  /** The commands one hit test runs: the command of the first hit button,
      or none. */
  function Fired(buttons: seq<G.Button>, pos: Point): (cs: seq<G.Command>)
    ensures |cs| <= 1
    ensures |cs| == 1 <==> exists j :: 0 <= j < |buttons| && Hits(buttons[j], pos)
  {
    match FirstHit(buttons, pos)
    case Some(k) => [buttons[k].command]
    case None => []
  }

  /** `check_buttonclick` without the call: the index of the button whose
      command runs, if any. */
  method CheckButtonclick(pos: Point, buttons: seq<G.Button>) returns (hit: Option<nat>)
    ensures hit == FirstHit(buttons, pos)
  {
    hit := None;
    var k := 0;
    while k < |buttons|
      invariant 0 <= k <= |buttons|
      invariant forall j :: 0 <= j < k ==> !Hits(buttons[j], pos)
    {
      var b := buttons[k];
      if b.bounds.Some? && b.bounds.value.CollidePoint(pos) {
        hit := Some(k);
        break;
      }
      k := k + 1;
    }
    FirstHitIsFirst(buttons, pos, hit);
  }

  /** `FirstHit` is the only index that is hit with no hit before it. */
  lemma FirstHitIsFirst(buttons: seq<G.Button>, pos: Point, hit: Option<nat>)
    requires hit.Some? ==> (hit.value < |buttons| && Hits(buttons[hit.value], pos) &&
      forall j :: 0 <= j < hit.value ==> !Hits(buttons[j], pos))
    requires hit.None? ==> forall j :: 0 <= j < |buttons| ==> !Hits(buttons[j], pos)
    ensures hit == FirstHit(buttons, pos)
  {
  }

  // ---------------------------------------------------------------------
  // Wait loops (scan_wifi, check_net, custom_command)
  // ---------------------------------------------------------------------

  /** How a wait loop ends within the given ticks: a result delivered at a
      tick, the wait cancelled by a menu tap, or still waiting. */
  datatype WaitOutcome = Delivered(at: nat, text: seq<string>) | Cancelled(at: nat) | StillWaiting

  /** The outcome of the wait from tick `i` on. */
  function WaitFrom(ticks: seq<Tick>, i: nat): (o: WaitOutcome)
    requires i <= |ticks|
    ensures o.Delivered? ==> i <= o.at < |ticks| && ticks[o.at].poll == Some(o.text)
    ensures o.Cancelled? ==> i <= o.at < |ticks| && ticks[o.at].poll == None && ticks[o.at].menuTapped
    ensures o.Delivered? || o.Cancelled? ==>
      forall j :: i <= j < o.at ==> ticks[j].poll == None && !ticks[j].menuTapped
    ensures o.StillWaiting? ==>
      forall j :: i <= j < |ticks| ==> ticks[j].poll == None && !ticks[j].menuTapped
    decreases |ticks| - i
  {
    if i == |ticks| then StillWaiting
    else match ticks[i].poll
      case Some(text) => Delivered(i, text)
      case None => if ticks[i].menuTapped then Cancelled(i) else WaitFrom(ticks, i + 1)
  }

  function Outcome(ticks: seq<Tick>): WaitOutcome
  {
    WaitFrom(ticks, 0)
  }

  /** Once the wait has ended, later ticks do not matter. */
  lemma {:induction false} OutcomeIgnoresLaterTicks(ticks: seq<Tick>, more: seq<Tick>, i: nat)
    requires i <= |ticks| && !WaitFrom(ticks, i).StillWaiting?
    ensures WaitFrom(ticks + more, i) == WaitFrom(ticks, i)
    decreases |ticks| - i
  {
    assert (ticks + more)[i] == ticks[i];
    if ticks[i].poll.None? && !ticks[i].menuTapped {
      OutcomeIgnoresLaterTicks(ticks, more, i + 1);
    }
  }

  /** Polls that never deliver and no tap keep the controller waiting, however
      many ticks pass. */
  lemma {:induction false} NeverDelivered(ticks: seq<Tick>, i: nat)
    requires i <= |ticks|
    requires forall j :: 0 <= j < |ticks| ==> ticks[j].poll == None && !ticks[j].menuTapped
    ensures WaitFrom(ticks, i) == StillWaiting
    decreases |ticks| - i
  {
    if i < |ticks| {
      NeverDelivered(ticks, i + 1);
    }
  }

  function JobFlag(f: Flags, job: Job): bool
  {
    match job
    case WifiScanJob => f.wifiScan
    case NetCheckJob => f.checkNet
    case CustomCommandJob => f.customCommand
  }

  /** The flags after a wait delivers its result. The custom-command loop
      clears the net-check flag instead of its own and leaves only through
      its `break`. */
  function ClearedOnDelivery(f: Flags, job: Job): Flags
  {
    match job
    case WifiScanJob => f.(wifiScan := false)
    case NetCheckJob => f.(checkNet := false)
    case CustomCommandJob => f.(checkNet := false)
  }

  /** After delivery the job's own flag is cleared for the wifi scan and the
      net check, but stays set for the custom command. */
  lemma DeliveryClearsOwnFlag(f: Flags, job: Job)
    ensures JobFlag(ClearedOnDelivery(f, job), job) == (job == CustomCommandJob && f.customCommand)
    ensures ClearedOnDelivery(f, job).wifiScan == (job != WifiScanJob && f.wifiScan)
  {
  }

  /** The flags while `job` waits: only its own flag is set. */
  function Started(job: Job): (f: Flags)
    ensures JobFlag(f, job)
    ensures forall other: Job :: other != job ==> !JobFlag(f, other)
  {
    match job
    case WifiScanJob => Flags(true, false, false)
    case NetCheckJob => Flags(false, true, false)
    case CustomCommandJob => Flags(false, false, true)
  }

  /** Once the titlebar is rendered, a tap at its top-left corner hits the
      menu button, and the command it runs is the toggle. */
  lemma MenuTapFiresToggle(textSize: string -> Size, titlebarHeight: int)
    requires textSize(MenuLabel).w > 0 && textSize(MenuLabel).h > 0 && titlebarHeight >= 0
    ensures var titlebar := [G.Button(MenuLabel, G.ToggleMenu, None)];
      var rendered := [titlebar[0].(bounds := Some(G.TitlebarBounds(titlebar, 0, textSize, titlebarHeight)))];
      Fired(rendered, Point(0, 0)) == [G.ToggleMenu]
  {
    var titlebar := [G.Button(MenuLabel, G.ToggleMenu, None)];
    G.TitlebarBoundsShape(titlebar, 0, textSize, titlebarHeight);
    var r := G.TitlebarBounds(titlebar, 0, textSize, titlebarHeight);
    assert r.CollidePoint(Point(0, 0));
  }

  // ---------------------------------------------------------------------
  // The controller's state as a value, and what each step does to it
  // ---------------------------------------------------------------------

  /** Everything a bound command may change: the controller's own fields,
      the gui's menu flag, titlebar text and textbox, and the net object's
      selection and published results. */
  datatype Controls = Controls(
    running: bool, poweroffRequested: bool, flags: Flags,
    menuOpen: bool, interfaceText: string, textboxText: seq<string>, textboxCurrentPage: int,
    currentInterface: string, lastWiredInterface: string, lastWirelessInterface: string,
    netStatusResults: Option<seq<string>>, customCommandResult: Option<seq<string>>)

  /** What event handling reads but never changes: the titlebar and menu
      lists, the page count, the scale and the interface lists. */
  datatype Setup = Setup(
    titlebarButtons: seq<G.Button>, menuButtons: seq<G.Button>, pages: int, scaleCorrection: real,
    wiredInterfaces: seq<string>, wirelessInterfaces: seq<string>)

  /** The display part of the gui, which only resizing and F11 change. */
  datatype Screen = Screen(
    windowSize: Size, fullscreen: bool, displaySize: Size, layout: Layout, pagingButtons: seq<G.Button>,
    fontAntialiased: bool)

  /** Everything an event may change. */
  datatype TesterState = TesterState(controls: Controls, screen: Screen)

  /** What a command needs of the state: each remembered interface is in
      its list (otherwise `iterate_interface` raises). */
  predicate Selectable(setup: Setup, c: Controls)
  {
    c.lastWiredInterface in setup.wiredInterfaces && c.lastWirelessInterface in setup.wirelessInterfaces
  }

  /** What an event needs of the state: a selectable interface and the two
      paging buttons `calculate_sizes` writes to. */
  predicate WellFormed(setup: Setup, s: TesterState)
  {
    Selectable(setup, s.controls) && |s.screen.pagingButtons| == 2
  }

  /** The start of a waiting command: its title, the withdrawal of the
      previous result, the toggle that closes (or opens) the menu and clears
      every flag, and then its own flag. The interface selection, the
      textbox and `running` are untouched. */
  function Launched(job: Job, c: Controls): (w: Controls)
    ensures JobFlag(w.flags, job) && w.menuOpen == !c.menuOpen
    ensures w.running == c.running && w.poweroffRequested == c.poweroffRequested
    ensures w.textboxText == c.textboxText && w.textboxCurrentPage == c.textboxCurrentPage
    ensures w.currentInterface == c.currentInterface && w.lastWiredInterface == c.lastWiredInterface &&
      w.lastWirelessInterface == c.lastWirelessInterface
  {
    var toggled := c.(menuOpen := !c.menuOpen, flags := Started(job));
    match job
    case WifiScanJob => toggled.(interfaceText := "WiFi-Scan")
    case NetCheckJob => toggled.(interfaceText := "Netztest", netStatusResults := None)
    case CustomCommandJob => toggled.(interfaceText := "Eigener Befehl", customCommandResult := None)
  }

  /** The wait for `job`, from the state `w` in which its flag is set: only
      the menu, the flags and the textbox change. The menu flips back exactly
      when a tap cancels the wait, and the job's own flag stays set exactly
      while it waits, or after a delivery of the custom command. */
  function Awaited(job: Job, ticks: seq<Tick>, w: Controls): (r: Controls)
    requires JobFlag(w.flags, job)
    ensures r == w.(menuOpen := r.menuOpen, flags := r.flags, textboxText := r.textboxText,
                    textboxCurrentPage := r.textboxCurrentPage)
    ensures r.menuOpen != w.menuOpen <==> Outcome(ticks).Cancelled?
    ensures JobFlag(r.flags, job) <==>
      Outcome(ticks).StillWaiting? || (Outcome(ticks).Delivered? && job == CustomCommandJob)
    ensures !Outcome(ticks).StillWaiting? ==> r.textboxCurrentPage == 0
  {
    match Outcome(ticks)
    case Delivered(_, text) =>
      w.(textboxText := text, textboxCurrentPage := 0, flags := ClearedOnDelivery(w.flags, job))
    case Cancelled(_) =>
      w.(textboxText := WaitText, textboxCurrentPage := 0, menuOpen := !w.menuOpen,
         flags := Flags(false, false, false))
    case StillWaiting =>
      if |ticks| == 0 then w else w.(textboxText := WaitText, textboxCurrentPage := 0)
  }

  /** A press of a switch: the list's next interface is selected, named in
      the titlebar and described in the textbox from its first page. */
  function Switched(wireless: bool, snapshot: N.AddressSnapshot, setup: Setup, c: Controls): (r: Controls)
    requires Selectable(setup, c)
    ensures Selectable(setup, r)
    ensures r.currentInterface in (if wireless then setup.wirelessInterfaces else setup.wiredInterfaces)
    ensures r.interfaceText == r.currentInterface && r.textboxCurrentPage == 0
    ensures r.running == c.running && r.poweroffRequested == c.poweroffRequested && r.flags == c.flags &&
      r.menuOpen == c.menuOpen
  {
    if wireless then
      var next := N.IterateInterface(c.currentInterface, setup.wirelessInterfaces, c.lastWirelessInterface).value;
      c.(currentInterface := next, lastWirelessInterface := next, interfaceText := next,
         textboxText := N.InterfaceInfo(snapshot, next), textboxCurrentPage := 0)
    else
      var next := N.IterateInterface(c.currentInterface, setup.wiredInterfaces, c.lastWiredInterface).value;
      c.(currentInterface := next, lastWiredInterface := next, interfaceText := next,
         textboxText := N.InterfaceInfo(snapshot, next), textboxCurrentPage := 0)
  }

  /** Running the bound `command`. Only `Shutdown` stops the program and
      requests the power-off, and every command leaves a selectable state. */
  function AfterCommand(command: G.Command, ticks: seq<Tick>, snapshot: N.AddressSnapshot, setup: Setup,
                        c: Controls): (r: Controls)
    requires Selectable(setup, c)
    ensures Selectable(setup, r)
    ensures r.running == (c.running && command != G.Shutdown)
    ensures r.poweroffRequested == (c.poweroffRequested || command == G.Shutdown)
  {
    match command
    case ToggleMenu => c.(menuOpen := !c.menuOpen, flags := Flags(false, false, false))
    case SwitchToWireless => Switched(true, snapshot, setup, c)
    case SwitchToWired => Switched(false, snapshot, setup, c)
    case Shutdown => c.(interfaceText := Goodbye, poweroffRequested := true, running := false)
    case CheckNet => Awaited(NetCheckJob, ticks, Launched(NetCheckJob, c))
    case ScanWifi => Awaited(WifiScanJob, ticks, Launched(WifiScanJob, c))
    case CustomCommand => Awaited(CustomCommandJob, ticks, Launched(CustomCommandJob, c))
    case PageUp => c.(textboxCurrentPage := TP.Scroll(c.textboxCurrentPage, true, setup.pages))
    case PageDown => c.(textboxCurrentPage := TP.Scroll(c.textboxCurrentPage, false, setup.pages))
  }

  /** `check_buttonclick` on one list: the command of the first hit button
      runs, and a miss changes nothing. */
  function AfterClick(buttons: seq<G.Button>, pos: Point, ticks: seq<Tick>, snapshot: N.AddressSnapshot,
                      setup: Setup, c: Controls): (r: Controls)
    requires Selectable(setup, c)
    ensures Selectable(setup, r)
    ensures Fired(buttons, pos) == [] ==> r == c
    ensures r.running == (c.running && Fired(buttons, pos) != [G.Shutdown])
  {
    var fired := Fired(buttons, pos);
    if fired == [] then c else AfterCommand(fired[0], ticks, snapshot, setup, c)
  }

  /** A left-button release at `pos`: the titlebar list, then the menu list
      or the paging list `paging`, as the menu stands after the titlebar
      command. */
  function AfterLeftClick(pos: Point, ticks: seq<Tick>, snapshot: N.AddressSnapshot, setup: Setup,
                          paging: seq<G.Button>, c: Controls): (r: Controls)
    requires Selectable(setup, c)
    ensures Selectable(setup, r)
    ensures r.running ==> c.running
  {
    var mid := AfterClick(setup.titlebarButtons, pos, ticks, snapshot, setup, c);
    AfterClick(if mid.menuOpen then setup.menuButtons else paging, pos, ticks, snapshot, setup, mid)
  }

  /** `display_resize` on the granted surface: the layout, the paging zones
      and the font switch follow it; the window size and the fullscreen flag
      stay. Antialiasing, once off, stays off. */
  function Resized(scaleCorrection: real, d: Screen, granted: Size): (r: Screen)
    requires |d.pagingButtons| == 2
    ensures |r.pagingButtons| == 2 && r.windowSize == d.windowSize && r.fullscreen == d.fullscreen
    ensures r.displaySize == granted && r.layout == ComputeLayout(granted, scaleCorrection)
    ensures r.pagingButtons[0].bounds == Some(r.layout.pagingUp) && r.pagingButtons[1].bounds == Some(r.layout.pagingDown)
    ensures r.fontAntialiased ==> d.fontAntialiased
  {
    var layout := ComputeLayout(granted, scaleCorrection);
    d.(displaySize := granted, layout := layout,
       pagingButtons := [d.pagingButtons[0].(bounds := Some(layout.pagingUp)),
                         d.pagingButtons[1].(bounds := Some(layout.pagingDown))],
       fontAntialiased := d.fontAntialiased && layout.textFontSize >= G.AliasThreshold)
  }

  /** One iteration of `process_events`. Quit and Escape only clear
      `running`; a resize and F11 change only the display; a left release
      dispatches; every other event changes nothing. */
  function AfterEvent(e: Event, snapshot: N.AddressSnapshot, setup: Setup, s: TesterState): (r: TesterState)
    requires WellFormed(setup, s)
    ensures WellFormed(setup, r)
    ensures r.controls.running ==> s.controls.running
    ensures e.Quit? || e == KeyDown(Escape) ==> !r.controls.running
    ensures !e.MouseUp? ==> r.controls == s.controls.(running := r.controls.running)
    ensures !(e.Resize? || (e.KeyDown? && e.key.F11?)) ==> r.screen == s.screen
    ensures e.OtherEvent? || e == KeyDown(OtherKey) || (e.MouseUp? && e.button != 1) ==> r == s
  {
    match e
    case Quit => s.(controls := s.controls.(running := false))
    case Resize(size, granted) => s.(screen := Resized(setup.scaleCorrection, s.screen.(windowSize := size), granted))
    case KeyDown(key) =>
      (match key
       case Escape => s.(controls := s.controls.(running := false))
       case F11(granted) =>
         s.(screen := Resized(setup.scaleCorrection, s.screen.(fullscreen := !s.screen.fullscreen), granted))
       case OtherKey => s)
    case MouseUp(button, pos, ticks) =>
      if button == 1 then
        s.(controls := AfterLeftClick(pos, ticks, snapshot, setup, s.screen.pagingButtons, s.controls))
      else s
    case OtherEvent => s
  }

  /** A batch of events, in order. Nothing restarts a stopped program. */
  function AfterEvents(events: seq<Event>, snapshot: N.AddressSnapshot, setup: Setup, s: TesterState)
    : (r: TesterState)
    requires WellFormed(setup, s)
    ensures WellFormed(setup, r)
    ensures r.controls.running ==> s.controls.running
    decreases |events|
  {
    if events == [] then s
    else AfterEvents(events[1..], snapshot, setup, AfterEvent(events[0], snapshot, setup, s))
  }

  /** A quit request or Escape anywhere in the batch leaves the program
      stopped. */
  lemma {:induction false} QuitInBatchStops(events: seq<Event>, snapshot: N.AddressSnapshot, setup: Setup,
                                            s: TesterState, k: nat)
    requires WellFormed(setup, s) && k < |events| && (events[k].Quit? || events[k] == KeyDown(Escape))
    ensures !AfterEvents(events, snapshot, setup, s).controls.running
    decreases k
  {
    var next := AfterEvent(events[0], snapshot, setup, s);
    if k > 0 {
      QuitInBatchStops(events[1..], snapshot, setup, next, k - 1);
    }
  }

  // ---------------------------------------------------------------------
  // The controller object
  // ---------------------------------------------------------------------

  /** The six menu buttons, in the order `create_buttons` appends them. */
  function MenuButtons(): seq<G.Button>
  {
    [G.Button("Wireless", G.SwitchToWireless, None),
     G.Button("Wired", G.SwitchToWired, None),
     G.Button("Shutdown", G.Shutdown, None),
     G.Button("Check Internet", G.CheckNet, None),
     G.Button("Wifi-Scan", G.ScanWifi, None),
     G.Button("Custom Command", G.CustomCommand, None)]
  }

  /** The first press of a switch on a fresh list selects its second entry
      (the first when there is only one). */
  lemma FirstSwitchSelectsSecond(interfaces: seq<string>)
    requires |interfaces| >= 1
    ensures N.IterateInterface(interfaces[0], interfaces, interfaces[0]) == Some(interfaces[1 % |interfaces|])
  {
    N.NextIndex(0, |interfaces|);
  }

  class NetTester {
    var running: bool
    var wifiScanInProgress: bool
    var checkNetInProgress: bool
    var customCommandInProgress: bool
    var poweroffRequested: bool
    const config: Config
    const gui: G.Gui
    const net: N.Net

    ghost predicate Valid()
      reads gui`layout, gui`displaySize, gui`scaleCorrection, gui`pagingButtons
      reads net`wirelessInterfaces, net`wiredInterfaces
      reads net`currentInterface, net`lastWiredInterface, net`lastWirelessInterface
    {
      gui.Valid() && net.Valid()
    }

    function FlagState(): Flags
      reads this`wifiScanInProgress, this`checkNetInProgress, this`customCommandInProgress
    {
      Flags(wifiScanInProgress, checkNetInProgress, customCommandInProgress)
    }

    predicate InProgress(job: Job)
      reads this
    {
      JobFlag(FlagState(), job)
    }

    /** The titlebar names the current interface and the textbox shows its
        information from the first page. */
    predicate ShowsInterface(snapshot: N.AddressSnapshot)
      reads gui, net
    {
      gui.interfaceText == net.currentInterface &&
      gui.textboxText == N.InterfaceInfo(snapshot, net.currentInterface) && gui.textboxCurrentPage == 0
    }

    /** The fields a bound command may change, as one value. */
    ghost function CurrentControls(): (c: Controls)
      reads this`running, this`poweroffRequested
      reads this`wifiScanInProgress, this`checkNetInProgress, this`customCommandInProgress
      reads gui`menuOpen, gui`interfaceText, gui`textboxText, gui`textboxCurrentPage
      reads net`currentInterface, net`lastWiredInterface, net`lastWirelessInterface
      reads net`netStatusResults, net`customCommandResult
      reads gui`titlebarButtons, gui`menuButtons, gui`pages, gui`scaleCorrection
      reads net`wiredInterfaces, net`wirelessInterfaces, gui`layout, gui`displaySize, gui`pagingButtons
      ensures Valid() ==> Selectable(CurrentSetup(), c)
    {
      Controls(running, poweroffRequested, FlagState(),
        gui.menuOpen, gui.interfaceText, gui.textboxText, gui.textboxCurrentPage,
        net.currentInterface, net.lastWiredInterface, net.lastWirelessInterface,
        net.netStatusResults, net.customCommandResult)
    }

    /** The fields event handling reads but does not change. */
    ghost function CurrentSetup(): Setup
      reads gui`titlebarButtons, gui`menuButtons, gui`pages, gui`scaleCorrection
      reads net`wiredInterfaces, net`wirelessInterfaces
    {
      Setup(gui.titlebarButtons, gui.menuButtons, gui.pages, gui.scaleCorrection,
        net.wiredInterfaces, net.wirelessInterfaces)
    }

    /** The display fields of the gui. */
    ghost function CurrentScreen(): (d: Screen)
      reads gui`windowSize, gui`fullscreen, gui`displaySize, gui`layout, gui`pagingButtons, gui`fontAntialiased
      reads gui`scaleCorrection
      ensures gui.Valid() ==> |d.pagingButtons| == 2
    {
      Screen(gui.windowSize, gui.fullscreen, gui.displaySize, gui.layout, gui.pagingButtons, gui.fontAntialiased)
    }

    /** Neither the display fields nor the setup fields changed. */
    twostate predicate ScreenAndSetupKept()
      reads gui`windowSize, gui`fullscreen, gui`displaySize, gui`layout, gui`pagingButtons, gui`fontAntialiased
      reads gui`titlebarButtons, gui`menuButtons, gui`pages, gui`scaleCorrection, net`wiredInterfaces, net`wirelessInterfaces
    {
      unchanged(gui`windowSize, gui`fullscreen, gui`displaySize, gui`layout, gui`pagingButtons, gui`fontAntialiased) &&
      unchanged(gui`titlebarButtons, gui`menuButtons, gui`pages, gui`scaleCorrection, net`wiredInterfaces, net`wirelessInterfaces)
    }

    /** The fields an event may change. */
    ghost function CurrentState(): (s: TesterState)
      reads this`running, this`poweroffRequested
      reads this`wifiScanInProgress, this`checkNetInProgress, this`customCommandInProgress
      reads gui`menuOpen, gui`interfaceText, gui`textboxText, gui`textboxCurrentPage
      reads net`currentInterface, net`lastWiredInterface, net`lastWirelessInterface
      reads net`netStatusResults, net`customCommandResult
      reads gui`titlebarButtons, gui`menuButtons, gui`pages, gui`scaleCorrection
      reads net`wiredInterfaces, net`wirelessInterfaces
      reads gui`windowSize, gui`fullscreen, gui`displaySize, gui`layout, gui`pagingButtons, gui`fontAntialiased
      ensures Valid() ==> WellFormed(CurrentSetup(), s)
    {
      TesterState(CurrentControls(), CurrentScreen())
    }

    /** `init`: build the gui on the granted surface, the net object from the
        system's interfaces, the buttons, and show the first wired switch. */
    constructor (config: Config, fg: G.Color, bg: G.Color, scaleCorrection: real, cursorSetting: string,
                 surface: Size, links: seq<string>, mac: string -> Option<string>, isWireless: string -> bool,
                 snapshot: N.AddressSnapshot)
      ensures Valid()
      ensures running && !poweroffRequested && FlagState() == Flags(false, false, false)
      ensures this.config == config
      ensures gui.menuOpen && gui.displaySize == surface
      ensures gui.titlebarButtons == [G.Button(MenuLabel, G.ToggleMenu, None)]
      ensures gui.menuButtons == MenuButtons()
      ensures net.wiredInterfaces == N.Padded(N.Classified(links, mac, isWireless, false))
      ensures net.wirelessInterfaces == N.Padded(N.Classified(links, mac, isWireless, true))
      // the start-up switch already rotates once
      ensures net.currentInterface == net.lastWiredInterface == net.wiredInterfaces[1 % |net.wiredInterfaces|]
      ensures gui.interfaceText == net.currentInterface
      ensures gui.textboxText == N.InterfaceInfo(snapshot, net.currentInterface) && gui.textboxCurrentPage == 0
    {
      this.config := config;
      gui := new G.Gui(fg, bg, scaleCorrection, cursorSetting, surface);
      net := new N.Net(links, mac, isWireless);
      running := false;
      wifiScanInProgress, checkNetInProgress, customCommandInProgress := false, false, false;
      poweroffRequested := false;
      new;
      PopulateAndSelect(snapshot);
      running := true;
    }

    /** The rest of `init()`: create the buttons and switch to the wired
        interface, which rotates the freshly selected first interface once. */
    method PopulateAndSelect(snapshot: N.AddressSnapshot)
      requires net.Valid() && net.currentInterface == net.lastWiredInterface == net.wiredInterfaces[0]
      modifies gui`titlebarButtons, gui`menuButtons
      modifies net`currentInterface, net`lastWiredInterface, gui`interfaceText, gui`textboxText, gui`textboxCurrentPage
      ensures net.Valid()
      ensures gui.titlebarButtons == old(gui.titlebarButtons) + [G.Button(MenuLabel, G.ToggleMenu, None)]
      ensures gui.menuButtons == old(gui.menuButtons) + MenuButtons()
      ensures net.currentInterface == net.lastWiredInterface == net.wiredInterfaces[1 % |net.wiredInterfaces|]
      ensures gui.interfaceText == net.currentInterface
      ensures gui.textboxText == N.InterfaceInfo(snapshot, net.currentInterface) && gui.textboxCurrentPage == 0
    {
      CreateButtons();
      FirstSwitchSelectsSecond(net.wiredInterfaces);
      SwitchToWired(snapshot);
    }

    /** `create_buttons`: the titlebar menu button and the six menu buttons
        are appended; the paging buttons already carry page up and down. */
    method CreateButtons()
      modifies gui`titlebarButtons, gui`menuButtons
      ensures gui.titlebarButtons == old(gui.titlebarButtons) + [G.Button(MenuLabel, G.ToggleMenu, None)]
      ensures gui.menuButtons == old(gui.menuButtons) + MenuButtons()
    {
      gui.titlebarButtons := gui.titlebarButtons + [G.Button(MenuLabel, G.ToggleMenu, None)];
      gui.menuButtons := gui.menuButtons + MenuButtons();
    }

    /** `toggle_menu`: flip the menu and cancel every wait. */
    method ToggleMenu()
      modifies gui`menuOpen, this`wifiScanInProgress, this`checkNetInProgress, this`customCommandInProgress
      ensures gui.Valid() == old(gui.Valid()) && net.Valid() == old(net.Valid())
      ensures gui.menuOpen == !old(gui.menuOpen)
      ensures FlagState() == Flags(false, false, false)
      ensures CurrentControls() == old(CurrentControls()).(menuOpen := !old(gui.menuOpen), flags := Flags(false, false, false))
      ensures ScreenAndSetupKept()
    {
      gui.menuOpen := !gui.menuOpen;
      wifiScanInProgress := false;
      checkNetInProgress := false;
      customCommandInProgress := false;
    }

    /** `shutdown`: say goodbye, request the power-off and stop the loop. */
    method Shutdown()
      modifies gui`interfaceText, this`poweroffRequested, this`running
      ensures gui.Valid() == old(gui.Valid()) && net.Valid() == old(net.Valid())
      ensures gui.interfaceText == Goodbye && poweroffRequested && !running
      ensures CurrentControls() == old(CurrentControls()).(interfaceText := Goodbye, poweroffRequested := true, running := false)
      ensures ScreenAndSetupKept()
    {
      gui.interfaceText := Goodbye;
      poweroffRequested := true;
      running := false;
    }

    /** `page_up`: scroll one page towards the start. */
    method PageUp()
      modifies gui`textboxCurrentPage
      ensures gui.Valid() == old(gui.Valid()) && net.Valid() == old(net.Valid())
      ensures gui.textboxCurrentPage == TP.Scroll(old(gui.textboxCurrentPage), true, gui.pages)
      ensures CurrentControls() == old(CurrentControls()).(textboxCurrentPage := gui.textboxCurrentPage)
      ensures ScreenAndSetupKept()
    {
      gui.ScrollTextbox(true);
    }

    /** `page_down`: scroll one page towards the end. */
    method PageDown()
      modifies gui`textboxCurrentPage
      ensures gui.Valid() == old(gui.Valid()) && net.Valid() == old(net.Valid())
      ensures gui.textboxCurrentPage == TP.Scroll(old(gui.textboxCurrentPage), false, gui.pages)
      ensures CurrentControls() == old(CurrentControls()).(textboxCurrentPage := gui.textboxCurrentPage)
      ensures ScreenAndSetupKept()
    {
      gui.ScrollTextbox(false);
    }

    /** `switch_to_wired`: rotate the wired selection, name it in the
        titlebar and show its addresses. */
    method SwitchToWired(snapshot: N.AddressSnapshot)
      requires net.Valid()
      modifies net`currentInterface, net`lastWiredInterface, gui`interfaceText, gui`textboxText, gui`textboxCurrentPage
      ensures net.Valid()
      ensures Some(net.currentInterface) ==
        N.IterateInterface(old(net.currentInterface), net.wiredInterfaces, old(net.lastWiredInterface))
      ensures net.lastWiredInterface == net.currentInterface
      ensures gui.interfaceText == net.currentInterface
      ensures gui.textboxText == N.InterfaceInfo(snapshot, net.currentInterface) && gui.textboxCurrentPage == 0
      ensures CurrentControls() == old(CurrentControls()).(currentInterface := net.currentInterface, lastWiredInterface := net.currentInterface,
        interfaceText := net.currentInterface, textboxText := gui.textboxText, textboxCurrentPage := 0)
      ensures ScreenAndSetupKept()
    {
      net.SwitchToWired();
      gui.interfaceText := net.currentInterface;
      var info := net.GetInterfaceInfo(snapshot);
      gui.SetText(info);
    }

    /** `switch_to_wireless`: the same for the wireless list. */
    method SwitchToWireless(snapshot: N.AddressSnapshot)
      requires net.Valid()
      modifies net`currentInterface, net`lastWirelessInterface, gui`interfaceText, gui`textboxText, gui`textboxCurrentPage
      ensures net.Valid()
      ensures Some(net.currentInterface) ==
        N.IterateInterface(old(net.currentInterface), net.wirelessInterfaces, old(net.lastWirelessInterface))
      ensures net.lastWirelessInterface == net.currentInterface
      ensures gui.interfaceText == net.currentInterface
      ensures gui.textboxText == N.InterfaceInfo(snapshot, net.currentInterface) && gui.textboxCurrentPage == 0
      ensures CurrentControls() == old(CurrentControls()).(currentInterface := net.currentInterface, lastWirelessInterface := net.currentInterface,
        interfaceText := net.currentInterface, textboxText := gui.textboxText, textboxCurrentPage := 0)
      ensures ScreenAndSetupKept()
    {
      net.SwitchToWireless();
      gui.interfaceText := net.currentInterface;
      var info := net.GetInterfaceInfo(snapshot);
      gui.SetText(info);
    }

    /** The wait loop shared by the three waiting commands: poll; show the
        result and leave when there is one; otherwise show the waiting notice
        and run one nested event step, which may toggle the menu and so
        cancel the wait. The loop ends early only by a delivery or a tap;
        `ticks` bounds how many turns are observed. */
    method AwaitResult(job: Job, ticks: seq<Tick>)
      requires InProgress(job)
      modifies this`wifiScanInProgress, this`checkNetInProgress, this`customCommandInProgress
      modifies gui`menuOpen, gui`textboxText, gui`textboxCurrentPage
      ensures match Outcome(ticks)
        case Delivered(_, text) =>
          gui.textboxText == text && gui.textboxCurrentPage == 0 &&
          gui.menuOpen == old(gui.menuOpen) && FlagState() == ClearedOnDelivery(old(FlagState()), job)
        case Cancelled(_) =>
          gui.textboxText == WaitText && gui.textboxCurrentPage == 0 &&
          gui.menuOpen == !old(gui.menuOpen) && FlagState() == Flags(false, false, false)
        case StillWaiting =>
          gui.menuOpen == old(gui.menuOpen) && FlagState() == old(FlagState()) &&
          (|ticks| > 0 ==> gui.textboxText == WaitText && gui.textboxCurrentPage == 0) &&
          (|ticks| == 0 ==> gui.textboxText == old(gui.textboxText) &&
                            gui.textboxCurrentPage == old(gui.textboxCurrentPage))
    {
      var i := 0;
      while InProgress(job) && i < |ticks|
        invariant 0 <= i <= |ticks|
        invariant Outcome(ticks) == WaitFrom(ticks, i)
        invariant InProgress(job) && gui.menuOpen == old(gui.menuOpen) && FlagState() == old(FlagState())
        invariant i > 0 ==> gui.textboxText == WaitText && gui.textboxCurrentPage == 0
        invariant i == 0 ==> gui.textboxText == old(gui.textboxText) &&
                             gui.textboxCurrentPage == old(gui.textboxCurrentPage)
      {
        var data := ticks[i].poll;
        if data.Some? {
          gui.SetText(data.value);
          if job == CustomCommandJob {
            checkNetInProgress := false;
          } else if job == NetCheckJob {
            checkNetInProgress := false;
          } else {
            wifiScanInProgress := false;
          }
          return;
        }
        gui.SetText(WaitText);
        if ticks[i].menuTapped {
          ToggleMenu();
          return;
        }
        i := i + 1;
      }
    }

    /** The wait of a started job, stated on the controller fields. */
    method WaitForJob(job: Job, ticks: seq<Tick>)
      requires InProgress(job)
      modifies this`wifiScanInProgress, this`checkNetInProgress, this`customCommandInProgress
      modifies gui`menuOpen, gui`textboxText, gui`textboxCurrentPage
      ensures gui.Valid() == old(gui.Valid()) && net.Valid() == old(net.Valid())
      ensures CurrentControls() == Awaited(job, ticks, old(CurrentControls()))
      ensures ScreenAndSetupKept()
    {
      AwaitResult(job, ticks);
    }

    /** `scan_wifi`: show the wifi scan once the scanner has published it. */
    method ScanWifi(ticks: seq<Tick>)
      modifies this`wifiScanInProgress, this`checkNetInProgress, this`customCommandInProgress
      modifies gui`menuOpen, gui`textboxText, gui`textboxCurrentPage, gui`interfaceText
      ensures gui.Valid() == old(gui.Valid()) && net.Valid() == old(net.Valid())
      ensures gui.interfaceText == "WiFi-Scan"
      ensures CurrentControls() == Awaited(WifiScanJob, ticks, Launched(WifiScanJob, old(CurrentControls())))
      ensures ScreenAndSetupKept()
    {
      gui.interfaceText := "WiFi-Scan";
      ToggleMenu();
      wifiScanInProgress := true;
      WaitForJob(WifiScanJob, ticks);
    }

    /** `check_net`: start the reachability worker on the configured remotes
        (returned as `remotes`) and show its report once published. */
    method CheckNet(ticks: seq<Tick>) returns (remotes: seq<string>)
      modifies this`wifiScanInProgress, this`checkNetInProgress, this`customCommandInProgress
      modifies gui`menuOpen, gui`textboxText, gui`textboxCurrentPage, gui`interfaceText, net`netStatusResults
      ensures gui.Valid() == old(gui.Valid()) && net.Valid() == old(net.Valid())
      ensures remotes == Split(config.onlineTestRemote, ',')
      ensures gui.interfaceText == "Netztest" && net.netStatusResults == None
      ensures CurrentControls() == Awaited(NetCheckJob, ticks, Launched(NetCheckJob, old(CurrentControls())))
      ensures ScreenAndSetupKept()
    {
      remotes := StartNetCheck();
      WaitForJob(NetCheckJob, ticks);
    }

    /** The start of `check_net`, up to the wait. */
    method StartNetCheck() returns (remotes: seq<string>)
      modifies this`wifiScanInProgress, this`checkNetInProgress, this`customCommandInProgress
      modifies gui`menuOpen, gui`interfaceText, net`netStatusResults
      ensures gui.Valid() == old(gui.Valid()) && net.Valid() == old(net.Valid())
      ensures remotes == Split(config.onlineTestRemote, ',')
      ensures gui.interfaceText == "Netztest" && net.netStatusResults == None
      ensures ScreenAndSetupKept()
      ensures CurrentControls() == Launched(NetCheckJob, old(CurrentControls()))
    {
      gui.interfaceText := "Netztest";
      ToggleMenu();
      checkNetInProgress := true;
      remotes := Split(config.onlineTestRemote, ',');
      net.NetChecker();
    }

    /** `custom_command`: start the configured command (returned as
        `command`) and show its output once published. Its flag stays set
        after delivery. */
    method CustomCommand(ticks: seq<Tick>) returns (command: string)
      modifies this`wifiScanInProgress, this`checkNetInProgress, this`customCommandInProgress
      modifies gui`menuOpen, gui`textboxText, gui`textboxCurrentPage, gui`interfaceText, net`customCommandResult
      ensures gui.Valid() == old(gui.Valid()) && net.Valid() == old(net.Valid())
      ensures command == config.customCommand
      ensures gui.interfaceText == "Eigener Befehl" && net.customCommandResult == None
      ensures CurrentControls() == Awaited(CustomCommandJob, ticks, Launched(CustomCommandJob, old(CurrentControls())))
      ensures ScreenAndSetupKept()
    {
      command := StartCustomCommand();
      WaitForJob(CustomCommandJob, ticks);
    }

    /** The start of `custom_command`, up to the wait. */
    method StartCustomCommand() returns (command: string)
      modifies this`wifiScanInProgress, this`checkNetInProgress, this`customCommandInProgress
      modifies gui`menuOpen, gui`interfaceText, net`customCommandResult
      ensures gui.Valid() == old(gui.Valid()) && net.Valid() == old(net.Valid())
      ensures command == config.customCommand
      ensures gui.interfaceText == "Eigener Befehl" && net.customCommandResult == None
      ensures CurrentControls() == Launched(CustomCommandJob, old(CurrentControls()))
      ensures ScreenAndSetupKept()
    {
      gui.interfaceText := "Eigener Befehl";
      ToggleMenu();
      customCommandInProgress := true;
      command := config.customCommand;
      net.CustomCommand();
    }

    /** Calling the command bound to a button. */
    method Run(command: G.Command, ticks: seq<Tick>, snapshot: N.AddressSnapshot)
      requires Valid()
      modifies this`running, this`poweroffRequested
      modifies this`wifiScanInProgress, this`checkNetInProgress, this`customCommandInProgress
      modifies gui`menuOpen, gui`textboxText, gui`textboxCurrentPage, gui`interfaceText
      modifies net`currentInterface, net`lastWiredInterface, net`lastWirelessInterface
      modifies net`netStatusResults, net`customCommandResult
      ensures Valid()
      ensures running == (old(running) && command != G.Shutdown)
      ensures CurrentControls() == AfterCommand(command, ticks, snapshot, CurrentSetup(), old(CurrentControls()))
      ensures ScreenAndSetupKept()
    {
      match command {
        case ToggleMenu => ToggleMenu();
        case SwitchToWireless => SwitchToWireless(snapshot);
        case SwitchToWired => SwitchToWired(snapshot);
        case Shutdown => Shutdown();
        case CheckNet => var _ := CheckNet(ticks);
        case ScanWifi => ScanWifi(ticks);
        case CustomCommand => var _ := CustomCommand(ticks);
        case PageUp => PageUp();
        case PageDown => PageDown();
      }
    }

    /** One iteration of `process_events`. For a left-button release the
        titlebar list is checked first; then the menu list when the menu is
        open at that moment (`menuOpenAtSecondTest`), the paging list
        otherwise. `fired` lists the commands run, in order. */
    method ProcessEvent(e: Event, snapshot: N.AddressSnapshot) returns (ghost fired: seq<G.Command>, ghost menuOpenAtSecondTest: bool)
      requires Valid()
      modifies this`running, this`poweroffRequested
      modifies this`wifiScanInProgress, this`checkNetInProgress, this`customCommandInProgress
      modifies gui`menuOpen, gui`textboxText, gui`textboxCurrentPage, gui`interfaceText
      modifies gui`windowSize, gui`fullscreen, gui`displaySize, gui`layout, gui`pagingButtons, gui`fontAntialiased
      modifies net`currentInterface, net`lastWiredInterface, net`lastWirelessInterface
      modifies net`netStatusResults, net`customCommandResult
      ensures Valid()
      ensures running ==> old(running)
      ensures e.Quit? || e == KeyDown(Escape) ==> !running
      ensures e.KeyDown? && e.key.F11? ==>
        gui.fullscreen == !old(gui.fullscreen) && gui.displaySize == e.key.granted && running == old(running)
      ensures e.Resize? ==> gui.windowSize == e.size && gui.displaySize == e.granted && running == old(running)
      ensures e.MouseUp? && e.button == 1 ==>
        var second := if menuOpenAtSecondTest then gui.menuButtons else gui.pagingButtons;
        fired == Fired(gui.titlebarButtons, e.pos) + Fired(second, e.pos) &&
        (Fired(gui.titlebarButtons, e.pos) == [] ==> menuOpenAtSecondTest == old(gui.menuOpen)) &&
        (Fired(gui.titlebarButtons, e.pos) == [G.ToggleMenu] ==> menuOpenAtSecondTest == !old(gui.menuOpen))
      ensures !(e.MouseUp? && e.button == 1) ==> fired == []
      ensures CurrentState() == AfterEvent(e, snapshot, CurrentSetup(), old(CurrentState()))
      ensures CurrentSetup() == old(CurrentSetup())
    {
      fired, menuOpenAtSecondTest := [], gui.menuOpen;
      match e {
        case Quit =>
          running := false;
        case Resize(size, granted) =>
          ResizeWindow(size, granted);
        case KeyDown(key) =>
          match key {
            case Escape =>
              running := false;
            case F11(granted) =>
              ToggleFullscreen(granted);
            case OtherKey =>
          }
        case MouseUp(button, pos, ticks) =>
          if button == 1 {
            fired, menuOpenAtSecondTest := LeftClick(pos, ticks, snapshot);
          }
        case OtherEvent =>
      }
    }

    /** The resize branch of `process_events`: store the new window size
        and resize the display to the granted surface. */
    method ResizeWindow(size: Size, granted: Size)
      requires Valid()
      modifies gui`windowSize, gui`displaySize, gui`layout, gui`pagingButtons, gui`fontAntialiased
      ensures Valid()
      ensures gui.windowSize == size && gui.displaySize == granted
      ensures CurrentState() ==
        old(CurrentState()).(screen := Resized(gui.scaleCorrection, old(CurrentScreen()).(windowSize := size), granted))
      ensures CurrentSetup() == old(CurrentSetup())
    {
      gui.windowSize := size;
      gui.DisplayResize(granted);
    }

    /** The F11 branch of `process_events`: flip fullscreen and resize the
        display to the granted surface. */
    method ToggleFullscreen(granted: Size)
      requires Valid()
      modifies gui`fullscreen, gui`displaySize, gui`layout, gui`pagingButtons, gui`fontAntialiased
      ensures Valid()
      ensures gui.fullscreen == !old(gui.fullscreen) && gui.displaySize == granted
      ensures CurrentState() == old(CurrentState()).(
        screen := Resized(gui.scaleCorrection, old(CurrentScreen()).(fullscreen := !old(gui.fullscreen)), granted))
      ensures CurrentSetup() == old(CurrentSetup())
    {
      gui.fullscreen := !gui.fullscreen;
      gui.DisplayResize(granted);
    }

    /** The handling of a left-button release at `pos`: the titlebar list
        first, then the menu list or the paging list, chosen by the menu
        state after the titlebar command has run. */
    method LeftClick(pos: Point, ticks: seq<Tick>, snapshot: N.AddressSnapshot)
      returns (ghost fired: seq<G.Command>, ghost menuOpenAtSecondTest: bool)
      requires Valid()
      modifies this`running, this`poweroffRequested
      modifies this`wifiScanInProgress, this`checkNetInProgress, this`customCommandInProgress
      modifies gui`menuOpen, gui`textboxText, gui`textboxCurrentPage, gui`interfaceText
      modifies net`currentInterface, net`lastWiredInterface, net`lastWirelessInterface
      modifies net`netStatusResults, net`customCommandResult
      ensures Valid()
      ensures running ==> old(running)
      ensures var second := if menuOpenAtSecondTest then gui.menuButtons else gui.pagingButtons;
        fired == Fired(gui.titlebarButtons, pos) + Fired(second, pos)
      ensures Fired(gui.titlebarButtons, pos) == [] ==> menuOpenAtSecondTest == old(gui.menuOpen)
      ensures Fired(gui.titlebarButtons, pos) == [G.ToggleMenu] ==> menuOpenAtSecondTest == !old(gui.menuOpen)
      ensures CurrentControls() == AfterLeftClick(pos, ticks, snapshot, CurrentSetup(), gui.pagingButtons, old(CurrentControls()))
      ensures ScreenAndSetupKept()
    {
      ghost var first := ClickTitlebar(pos, ticks, snapshot);
      menuOpenAtSecondTest := gui.menuOpen;
      ghost var second := ClickMenuOrPaging(pos, ticks, snapshot);
      fired := first + second;
    }

    /** The titlebar half of a left click: the titlebar list is checked and
        the command of its first hit button runs. */
    method ClickTitlebar(pos: Point, ticks: seq<Tick>, snapshot: N.AddressSnapshot) returns (ghost fired: seq<G.Command>)
      requires Valid()
      modifies this`running, this`poweroffRequested
      modifies this`wifiScanInProgress, this`checkNetInProgress, this`customCommandInProgress
      modifies gui`menuOpen, gui`textboxText, gui`textboxCurrentPage, gui`interfaceText
      modifies net`currentInterface, net`lastWiredInterface, net`lastWirelessInterface
      modifies net`netStatusResults, net`customCommandResult
      ensures Valid()
      ensures running ==> old(running)
      ensures fired == Fired(gui.titlebarButtons, pos)
      ensures fired == [] ==> CurrentControls() == old(CurrentControls())
      ensures |fired| == 1 ==> CurrentControls() == AfterCommand(fired[0], ticks, snapshot, CurrentSetup(), old(CurrentControls()))
      ensures CurrentControls() == AfterClick(gui.titlebarButtons, pos, ticks, snapshot, CurrentSetup(), old(CurrentControls()))
      ensures fired == [] ==> gui.menuOpen == old(gui.menuOpen)
      ensures fired == [G.ToggleMenu] ==> gui.menuOpen == !old(gui.menuOpen)
      ensures ScreenAndSetupKept()
    {
      fired := ClickList(gui.titlebarButtons, pos, ticks, snapshot);
    }

    /** The second half of a left click: the menu list when the menu is open
        at this moment, the paging list otherwise. */
    method ClickMenuOrPaging(pos: Point, ticks: seq<Tick>, snapshot: N.AddressSnapshot) returns (ghost fired: seq<G.Command>)
      requires Valid()
      modifies this`running, this`poweroffRequested
      modifies this`wifiScanInProgress, this`checkNetInProgress, this`customCommandInProgress
      modifies gui`menuOpen, gui`textboxText, gui`textboxCurrentPage, gui`interfaceText
      modifies net`currentInterface, net`lastWiredInterface, net`lastWirelessInterface
      modifies net`netStatusResults, net`customCommandResult
      ensures Valid()
      ensures running ==> old(running)
      ensures fired == Fired(if old(gui.menuOpen) then gui.menuButtons else gui.pagingButtons, pos)
      ensures fired == [] ==> CurrentControls() == old(CurrentControls())
      ensures |fired| == 1 ==> CurrentControls() == AfterCommand(fired[0], ticks, snapshot, CurrentSetup(), old(CurrentControls()))
      ensures CurrentControls() == AfterClick(if old(gui.menuOpen) then gui.menuButtons else gui.pagingButtons,
        pos, ticks, snapshot, CurrentSetup(), old(CurrentControls()))
      ensures ScreenAndSetupKept()
    {
      if gui.menuOpen {
        fired := ClickList(gui.menuButtons, pos, ticks, snapshot);
      } else {
        fired := ClickList(gui.pagingButtons, pos, ticks, snapshot);
      }
    }

    /** `check_buttonclick` on one list, guarded by the list being non-empty:
        the command of the first hit button runs. */
    method ClickList(buttons: seq<G.Button>, pos: Point, ticks: seq<Tick>, snapshot: N.AddressSnapshot)
      returns (ghost fired: seq<G.Command>)
      requires Valid()
      modifies this`running, this`poweroffRequested
      modifies this`wifiScanInProgress, this`checkNetInProgress, this`customCommandInProgress
      modifies gui`menuOpen, gui`textboxText, gui`textboxCurrentPage, gui`interfaceText
      modifies net`currentInterface, net`lastWiredInterface, net`lastWirelessInterface
      modifies net`netStatusResults, net`customCommandResult
      ensures Valid()
      ensures running ==> old(running)
      ensures fired == Fired(buttons, pos)
      ensures fired == [] ==> CurrentControls() == old(CurrentControls())
      ensures |fired| == 1 ==> CurrentControls() == AfterCommand(fired[0], ticks, snapshot, CurrentSetup(), old(CurrentControls()))
      ensures CurrentControls() == AfterClick(buttons, pos, ticks, snapshot, CurrentSetup(), old(CurrentControls()))
      ensures fired == [G.ToggleMenu] ==> gui.menuOpen == !old(gui.menuOpen)
      ensures fired == [] ==> gui.menuOpen == old(gui.menuOpen)
      ensures ScreenAndSetupKept()
    {
      fired := [];
      if |buttons| > 0 {
        var hit := CheckButtonclick(pos, buttons);
        if hit.Some? {
          var command := buttons[hit.value].command;
          fired := [command];
          Run(command, ticks, snapshot);
        }
      }
    }

    /** `process_events`: every event of the batch in order. A quit request
        anywhere in the batch stops the program, and nothing restarts it. */
    method ProcessEvents(events: seq<Event>, snapshot: N.AddressSnapshot)
      requires Valid()
      modifies this`running, this`poweroffRequested
      modifies this`wifiScanInProgress, this`checkNetInProgress, this`customCommandInProgress
      modifies gui`menuOpen, gui`textboxText, gui`textboxCurrentPage, gui`interfaceText
      modifies gui`windowSize, gui`fullscreen, gui`displaySize, gui`layout, gui`pagingButtons, gui`fontAntialiased
      modifies net`currentInterface, net`lastWiredInterface, net`lastWirelessInterface
      modifies net`netStatusResults, net`customCommandResult
      ensures Valid()
      ensures running ==> old(running)
      ensures (exists k :: 0 <= k < |events| && (events[k].Quit? || events[k] == KeyDown(Escape))) ==> !running
      ensures CurrentSetup() == old(CurrentSetup())
      ensures CurrentState() == AfterEvents(events, snapshot, CurrentSetup(), old(CurrentState()))
    {
      for k := 0 to |events|
        invariant Valid()
        invariant CurrentSetup() == old(CurrentSetup())
        invariant AfterEvents(events[k..], snapshot, CurrentSetup(), CurrentState()) ==
          AfterEvents(events, snapshot, CurrentSetup(), old(CurrentState()))
      {
        var _, _ := ProcessEvent(events[k], snapshot);
        assert events[k..][1..] == events[k + 1..];
      }
      assert events[|events|..] == [];
      if k :| 0 <= k < |events| && (events[k].Quit? || events[k] == KeyDown(Escape)) {
        QuitInBatchStops(events, snapshot, CurrentSetup(), old(CurrentState()), k);
      }
    }

    /** One turn of the main loop: the events, then the display refresh with
        the rendered label sizes `textSize` and the font's glyph width and
        line height. */
    method Loop(events: seq<Event>, snapshot: N.AddressSnapshot, textSize: string -> Size, emWidth: int, lineHeight: int)
      returns (frame: G.Frame)
      requires Valid() && emWidth > 0 && lineHeight > 0
      modifies this`running, this`poweroffRequested
      modifies this`wifiScanInProgress, this`checkNetInProgress, this`customCommandInProgress
      modifies gui`menuOpen, gui`textboxText, gui`textboxCurrentPage, gui`interfaceText, gui`menuButtons, gui`pages
      modifies gui`titlebarButtons
      modifies gui`windowSize, gui`fullscreen, gui`displaySize, gui`layout, gui`pagingButtons, gui`fontAntialiased
      modifies net`currentInterface, net`lastWiredInterface, net`lastWirelessInterface
      modifies net`netStatusResults, net`customCommandResult
      ensures Valid()
      ensures running ==> old(running)
      ensures gui.menuOpen <==> frame == G.MenuFrame
      ensures |gui.titlebarButtons| == |old(gui.titlebarButtons)|
      ensures forall k :: 0 <= k < |gui.titlebarButtons| ==>
        gui.titlebarButtons[k] == old(gui.titlebarButtons[k]).(bounds := Some(
          G.TitlebarBounds(old(gui.titlebarButtons), k, textSize, gui.layout.titlebarSize.h)))
      ensures gui.menuOpen ==>
        gui.pages == old(gui.pages) && |gui.menuButtons| == |old(gui.menuButtons)| &&
        forall k :: 0 <= k < |gui.menuButtons| ==>
          gui.menuButtons[k] == old(gui.menuButtons[k]).(bounds := Some(
            MenuButtonBounds(k, gui.layout.menuButtonSize, gui.layout.menuButtonPadding, gui.layout.menuPosition)))
      ensures !gui.menuOpen ==>
        gui.menuButtons == old(gui.menuButtons) &&
        var m := TP.MetricsFor(gui.layout.textboxSize, emWidth, lineHeight);
        if m.linesPerPage == 0 then frame == G.TextboxFailed && gui.pages == old(gui.pages)
        else gui.pages == TP.LastPage(|gui.textboxText|, m.linesPerPage) &&
             frame == G.TextboxFrame(TP.RenderPage(gui.textboxText, gui.textboxCurrentPage, m))
      ensures CurrentState() == AfterEvents(events, snapshot, old(CurrentSetup()), old(CurrentState()))
    {
      ProcessEvents(events, snapshot);
      frame := gui.UpdateDisplay(textSize, emWidth, lineHeight);
    }
  }
}
