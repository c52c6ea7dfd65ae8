/** The presentation loop (src/main.rs): the window geometry derived from the
    screen, the surface-size bookkeeping of `State`, and the frame loop that
    reacts to each render outcome, polls for one event and, on every 30th
    iteration without a pending event, runs the overlay's stacking check. */
module Presentation {
  import opened Wrappers
  import opened XProto
  import opened XServer
  import Overlay

  // ---------------------------------------------------------------------------
  // Window geometry

  /** Where the overlay is placed: this far from the screen's top-left corner. */
  const WINDOW_OFFSET: i16 := 100
  /** How much narrower and shorter than the screen the overlay is. */
  const SCREEN_MARGIN: u16 := 200

  datatype Geometry = Geometry(x: i16, y: i16, width: u16, height: u16)

  /** The place and size passed to create_overlay_window. In a build with
      overflow checks, the unsigned 16-bit subtraction panics on a screen smaller
      than the margin. */
  function OverlayGeometry(screen: Screen): (g: Result<Geometry, Failure>)
    ensures g.Ok? <==> screen.widthInPixels >= SCREEN_MARGIN && screen.heightInPixels >= SCREEN_MARGIN
    ensures g.Err? ==> g.error == ScreenTooSmall
    ensures g.Ok? ==> g.value.x == WINDOW_OFFSET && g.value.y == WINDOW_OFFSET
    ensures g.Ok? ==> g.value.x + g.value.width + g.value.x == screen.widthInPixels
    ensures g.Ok? ==> g.value.y + g.value.height + g.value.y == screen.heightInPixels
  {
    if screen.widthInPixels < SCREEN_MARGIN || screen.heightInPixels < SCREEN_MARGIN then
      Err(ScreenTooSmall)
    else
      Ok(Geometry(WINDOW_OFFSET, WINDOW_OFFSET,
                  screen.widthInPixels - SCREEN_MARGIN, screen.heightInPixels - SCREEN_MARGIN))
  }

  /** The handle the GPU surface is created from. The raw connection pointer it
      also carries is not modelled. */
  datatype MyWindow = MyWindow(window: Window, visualId: VisualId, screen: nat, width: u32, height: u32)

  /** The handle built after the window is mapped. Its size is computed again from
      the screen, in 32-bit arithmetic, and its visual is the screen's root
      visual, not the depth-32 visual the window was created with. */
  function WindowHandle(win: Window, screen: Screen, screenNum: nat): MyWindow
    requires screen.widthInPixels >= SCREEN_MARGIN && screen.heightInPixels >= SCREEN_MARGIN
  {
    MyWindow(win, screen.rootVisual, screenNum,
             screen.widthInPixels - SCREEN_MARGIN, screen.heightInPixels - SCREEN_MARGIN)
  }

  /** The handle's size is the size the window was created with. */
  lemma HandleMatchesGeometry(win: Window, screen: Screen, screenNum: nat)
    requires OverlayGeometry(screen).Ok?
    ensures var g := OverlayGeometry(screen).value;
      var h := WindowHandle(win, screen, screenNum);
      h.width == g.width && h.height == g.height && h.window == win && h.visualId == screen.rootVisual
  {
  }

  // ---------------------------------------------------------------------------
  // Surface bookkeeping

  datatype TextureUsage = RenderAttachment
  datatype PresentMode = AutoVsync | AutoNoVsync | Fifo | Immediate | Mailbox
  datatype CompositeAlphaMode = Auto | Opaque | PreMultiplied | PostMultiplied | Inherit
  /** The first format the surface reports as supported; it is discovered, not chosen. */
  type TextureFormat = nat

  datatype SurfaceConfiguration = SurfaceConfiguration(
    usage: TextureUsage,
    format: TextureFormat,
    width: u32,
    height: u32,
    presentMode: PresentMode,
    alphaMode: CompositeAlphaMode)

  /** The GPU surface, as an object that records every configuration applied to it. */
  class Surface {
    var configured: seq<SurfaceConfiguration>

    constructor ()
      ensures configured == []
    {
      configured := [];
    }

    method Configure(config: SurfaceConfiguration)
      modifies this
      ensures configured == old(configured) + [config]
    {
      configured := configured + [config];
    }
  }

  predicate Positive(size: (u32, u32))
  {
    size.0 > 0 && size.1 > 0
  }

  /** The surface-size part of `State`: the logical size, the surface configuration
      and the surface it is applied to. */
  class State {
    const surface: Surface
    var config: SurfaceConfiguration
    var size: (u32, u32)

    /** The logical size is always the configured size. */
    ghost predicate Valid()
      reads this
    {
      size == (config.width, config.height)
    }

    /** The bookkeeping of State::new: the window's size, the discovered format, a
        render-attachment usage and vsync presentation, applied once. */
    constructor (window: MyWindow, format: TextureFormat)
      ensures Valid() && fresh(surface)
      ensures size == (window.width, window.height)
      ensures config == SurfaceConfiguration(RenderAttachment, format, window.width, window.height, Fifo, Auto)
      ensures surface.configured == [config]
    {
      size := (window.width, window.height);
      config := SurfaceConfiguration(RenderAttachment, format, window.width, window.height, Fifo, Auto);
      surface := new Surface();
      new;
      surface.Configure(config);
    }

    /** A size with a zero side is ignored; any other size becomes the logical and
        the configured size, and the surface is reconfigured once. */
    method Resize(newSize: (u32, u32))
      requires Valid()
      modifies this, surface
      ensures Valid()
      ensures Positive(newSize) ==>
        && size == newSize
        && config == old(config).(width := newSize.0, height := newSize.1)
        && surface.configured == old(surface.configured) + [config]
      ensures !Positive(newSize) ==>
        size == old(size) && config == old(config) && surface.configured == old(surface.configured)
    {
      if newSize.0 > 0 && newSize.1 > 0 {
        size := newSize;
        config := config.(width := newSize.0);
        config := config.(height := newSize.1);
        surface.Configure(config);
      }
    }
  }

  // ---------------------------------------------------------------------------
  // Reacting to a render outcome

  datatype SurfaceError = Lost | Outdated | OutOfMemory | Timeout

  /** What rendering one frame reported. */
  datatype RenderResult = Rendered | RenderFailed(error: SurfaceError)

  datatype Reaction = Proceed | SelfResize | Terminate | LogTimeout

  /** The loop's four-way classification of a render outcome. */
  function ReactTo(r: RenderResult): (a: Reaction)
    ensures a == Terminate <==> r == RenderFailed(OutOfMemory)
    ensures a == SelfResize <==> r == RenderFailed(Lost) || r == RenderFailed(Outdated)
    ensures a == LogTimeout <==> r == RenderFailed(Timeout)
  {
    match r
    case Rendered => Proceed
    case RenderFailed(Lost) => SelfResize
    case RenderFailed(Outdated) => SelfResize
    case RenderFailed(OutOfMemory) => Terminate
    case RenderFailed(Timeout) => LogTimeout
  }

  /** The configurations a run of render outcomes applies to the surface, when the
      loop starts with logical size `size` and configuration `config`: a self-resize
      reapplies the configuration unchanged, unless the size has a zero side. */
  function SelfResizes(renders: seq<RenderResult>, size: (u32, u32), config: SurfaceConfiguration)
    : seq<SurfaceConfiguration>
  {
    if renders == [] then []
    else
      SelfResizes(renders[..|renders| - 1], size, config)
      + if ReactTo(renders[|renders| - 1]) == SelfResize && Positive(size) then [config] else []
  }

  /** Self-resizes never change the configured size: every configuration a run
      applies is the starting one, whose size is the logical size. */
  lemma {:induction false} SelfResizesKeepSize(renders: seq<RenderResult>, size: (u32, u32), config: SurfaceConfiguration)
    requires size == (config.width, config.height)
    ensures forall c <- SelfResizes(renders, size, config) :: c == config && (c.width, c.height) == size
  {
    if renders != [] {
      SelfResizesKeepSize(renders[..|renders| - 1], size, config);
    }
  }

  // ---------------------------------------------------------------------------
  // The stacking-check schedule

  const STACK_CHECK_DELAY: nat := 30
  /** The counter's value before the first iteration. */
  const INITIAL_COUNTER: nat := 1

  function NextCounter(i: nat): (j: nat)
    ensures j < STACK_CHECK_DELAY
  {
    (i + 1) % STACK_CHECK_DELAY
  }

  /** The counter at the start of iteration `n` (the first iteration is 0). */
  function CounterAt(n: nat): nat
  {
    if n == 0 then INITIAL_COUNTER else NextCounter(CounterAt(n - 1))
  }

  lemma {:induction false} CounterAtClosedForm(n: nat)
    ensures CounterAt(n) == (n + 1) % STACK_CHECK_DELAY
  {
    if n > 0 {
      CounterAtClosedForm(n - 1);
      NextCounterOfRemainder(n);
    }
  }

  /** Advancing the remainder of n is taking the remainder of n + 1. */
  lemma NextCounterOfRemainder(n: nat)
    ensures NextCounter(n % STACK_CHECK_DELAY) == (n + 1) % STACK_CHECK_DELAY
  {
    var q, m := n / STACK_CHECK_DELAY, n % STACK_CHECK_DELAY;
    assert n == STACK_CHECK_DELAY * q + m;
    if m + 1 < STACK_CHECK_DELAY {
      assert n + 1 == STACK_CHECK_DELAY * q + (m + 1);
    } else {
      assert n + 1 == STACK_CHECK_DELAY * (q + 1);
    }
  }

  /** An iteration runs the stacking check when no event was pending and the
      counter is 0. */
  predicate StackCheckDue(eventPending: bool, i: nat)
  {
    !eventPending && i == 0
  }

  /** Iteration `n` runs the stacking check, when `events` says which iterations
      found an event pending. */
  predicate ScheduledCheck(events: seq<bool>, n: nat)
    requires n < |events|
  {
    StackCheckDue(events[n], CounterAt(n))
  }

  /** The check runs exactly on the quiet iterations whose number (counting from 1)
      is a multiple of 30; a pending event on such an iteration skips it. */
  lemma ScheduledCheckExactly(events: seq<bool>, n: nat)
    requires n < |events|
    ensures ScheduledCheck(events, n) <==> !events[n] && (n + 1) % STACK_CHECK_DELAY == 0
  {
    CounterAtClosedForm(n);
  }

  /** No check before the 30th iteration. */
  lemma FirstCheckOn30thIteration(events: seq<bool>, n: nat)
    requires n < |events| && ScheduledCheck(events, n)
    ensures n + 1 >= STACK_CHECK_DELAY
  {
    ScheduledCheckExactly(events, n);
  }

  /** Two checks are at least 30 iterations apart, so any 30 consecutive
      iterations hold at most one. */
  lemma ChecksAtLeast30Apart(events: seq<bool>, m: nat, n: nat)
    requires m < n < |events| && ScheduledCheck(events, m) && ScheduledCheck(events, n)
    ensures n - m >= STACK_CHECK_DELAY
  {
    ScheduledCheckExactly(events, m);
    ScheduledCheckExactly(events, n);
  }

  lemma SelfResizesExtend(renders: seq<RenderResult>, n: nat, size: (u32, u32), config: SurfaceConfiguration)
    requires n < |renders|
    ensures SelfResizes(renders[..n + 1], size, config)
              == SelfResizes(renders[..n], size, config) + SelfResizes([renders[n]], size, config)
  {
    assert renders[..n + 1][..n] == renders[..n];
    assert [renders[n]][..0] == [];
  }

  lemma AppendAssociative<T>(a: seq<T>, b: seq<T>, c: seq<T>)
    ensures a + b + c == a + (b + c)
  {
  }

  /** The requests a run of stacking checks sends, `checks` saying which
      iterations ran one. */
  function CheckLog(trees: map<Window, seq<Window>>, root: Window, win: Window, checks: seq<bool>)
    : seq<Request>
  {
    if checks == [] then []
    else
      CheckLog(trees, root, win, checks[..|checks| - 1])
      + if checks[|checks| - 1] then Overlay.RaiseLog(trees, root, win) else []
  }

  lemma CheckLogExtend(trees: map<Window, seq<Window>>, root: Window, win: Window, checks: seq<bool>, b: bool)
    ensures CheckLog(trees, root, win, checks + [b])
              == CheckLog(trees, root, win, checks) + if b then Overlay.RaiseLog(trees, root, win) else []
  {
    assert (checks + [b])[..|checks|] == checks;
  }

  // ---------------------------------------------------------------------------
  // The frame loop

  datatype StepResult = Continued(stackChecked: bool) | Broke | Aborted(failure: Failure)

  datatype RunResult = InputsExhausted | BrokeAt(at: nat) | AbortedAt(at: nat, failure: Failure)

  /** The loop of `main` and the state it carries between iterations. */
  class FrameLoop {
    const conn: Connection
    const state: State
    const root: Window
    const win: Window
    const handle: MyWindow
    var i: nat

    ghost predicate Valid()
      reads this, state
    {
      state.Valid() && i < STACK_CHECK_DELAY
    }

    constructor (conn: Connection, state: State, root: Window, win: Window, handle: MyWindow)
      requires state.Valid()
      ensures Valid() && i == INITIAL_COUNTER
      ensures this.conn == conn && this.state == state && this.root == root && this.win == win
      ensures this.handle == handle
    {
      this.conn := conn;
      this.state := state;
      this.root := root;
      this.win := win;
      this.handle := handle;
      i := INITIAL_COUNTER;
    }

    /** One iteration: react to the render outcome, poll for one event, run the
        stacking check when due, advance the counter. */
    method Step(render: RenderResult, eventPending: bool) returns (r: StepResult)
      requires Valid()
      modifies this`i, state, state.surface, conn`log
      ensures Valid()
      ensures r == Broke <==> render == RenderFailed(OutOfMemory)
      ensures state.size == old(state.size) && state.config == old(state.config)
      ensures state.surface.configured == old(state.surface.configured)
                + SelfResizes([render], old(state.size), old(state.config))
      ensures r == Broke ==> i == old(i) && conn.log == old(conn.log)
      ensures r != Broke ==>
        conn.log == old(conn.log)
          + if StackCheckDue(eventPending, old(i)) then Overlay.RaiseLog(conn.trees, root, win) else []
      ensures r != Broke ==> (r.Aborted? <==> StackCheckDue(eventPending, old(i)) && root !in conn.trees)
      ensures r.Aborted? ==> r.failure == QueryTreeReplyError(root) && i == old(i)
      ensures r.Continued? ==> r.stackChecked == StackCheckDue(eventPending, old(i)) && i == NextCounter(old(i))
    {
      assert [render][..0] == [];
      match ReactTo(render) {
        case SelfResize =>
          state.Resize(state.size);
        case Terminate =>
          return Broke;
        case LogTimeout =>
        case Proceed =>
      }
      var checked := false;
      if !eventPending && i == 0 {
        var raised := Overlay.RaiseIfNotTop(conn, root, win);
        if raised.Err? {
          return Aborted(raised.error);
        }
        checked := true;
      }
      i := NextCounter(i);
      r := Continued(checked);
    }

    /** The loop run over the given render outcomes and poll results, one pair per
        iteration, until it breaks, fails or the inputs run out. `checks` says
        which of the iterations that reached the poll ran the stacking check. */
    method Run(renders: seq<RenderResult>, events: seq<bool>) returns (r: RunResult, checks: seq<bool>)
      requires Valid() && i == INITIAL_COUNTER && |renders| == |events|
      modifies this`i, state, state.surface, conn`log
      ensures Valid()
      ensures r.InputsExhausted? ==> |checks| == |renders| && i == CounterAt(|renders|)
      ensures r.BrokeAt? ==> r.at < |renders| && renders[r.at] == RenderFailed(OutOfMemory) && |checks| == r.at
      ensures r.AbortedAt? ==>
        && r.at < |renders| && |checks| == r.at + 1 && checks[r.at]
        && root !in conn.trees && r.failure == QueryTreeReplyError(root)
      ensures RenderFailed(OutOfMemory) !in renders[..|checks|]
      ensures forall k :: 0 <= k < |checks| ==> checks[k] == ScheduledCheck(events, k)
      ensures root !in conn.trees ==>
        forall k :: 0 <= k < |checks| && checks[k] ==> r.AbortedAt? && k == r.at
      ensures state.size == old(state.size) && state.config == old(state.config)
      ensures state.surface.configured == old(state.surface.configured)
                + SelfResizes(renders[..|checks|], old(state.size), old(state.config))
      ensures conn.log == old(conn.log) + CheckLog(conn.trees, root, win, checks)
    {
      ghost var size0, config0 := state.size, state.config;
      ghost var configured0, log0 := state.surface.configured, conn.log;
      checks := [];
      var n := 0;
      while n < |renders|
        invariant 0 <= n <= |renders| && |checks| == n
        invariant Valid() && i == CounterAt(n)
        invariant RenderFailed(OutOfMemory) !in renders[..n]
        invariant forall k :: 0 <= k < n ==> checks[k] == ScheduledCheck(events, k)
        invariant root !in conn.trees ==> forall k :: 0 <= k < n ==> !checks[k]
        invariant state.size == size0 && state.config == config0
        invariant state.surface.configured == configured0 + SelfResizes(renders[..n], size0, config0)
        invariant conn.log == log0 + CheckLog(conn.trees, root, win, checks)
      {
        var step := Step(renders[n], events[n]);
        if step.Broke? {
          return BrokeAt(n), checks;
        }
        SelfResizesExtend(renders, n, size0, config0);
        AppendAssociative(configured0, SelfResizes(renders[..n], size0, config0), SelfResizes([renders[n]], size0, config0));
        var checked := step.Aborted? || step.stackChecked;
        assert checked == ScheduledCheck(events, n);
        assert root !in conn.trees && checked ==> step.Aborted?;
        CheckLogExtend(conn.trees, root, win, checks, checked);
        AppendAssociative(log0, CheckLog(conn.trees, root, win, checks),
                          if checked then Overlay.RaiseLog(conn.trees, root, win) else []);
        checks := checks + [checked];
        if step.Aborted? {
          return AbortedAt(n, step.failure), checks;
        }
        n := n + 1;
      }
      r := InputsExhausted;
    }
  }

  /** Startup: place the overlay by the screen's size, create and map it, build its
      handle and the surface state, and set up the loop with the counter at 1. */
  method Startup(conn: Connection, screen: Screen, screenNum: nat, format: TextureFormat)
    returns (r: Result<FrameLoop, Failure>)
    modifies conn`log, conn`freeIds
    ensures OverlayGeometry(screen).Err? ==>
      r == Err(ScreenTooSmall) && conn.log == old(conn.log) && conn.freeIds == old(conn.freeIds)
    ensures OverlayGeometry(screen).Ok? ==>
      var g := OverlayGeometry(screen).value;
      var s := Overlay.OverlaySetup(screen, g.x, g.y, g.width, g.height, old(conn.freeIds), conn.atoms);
      && conn.freeIds == old(conn.freeIds)[s.idsUsed..]
      && (s.result.Err? ==> r == Err(s.result.error) && conn.log == old(conn.log) + s.requests)
      && (s.result.Ok? ==>
            && r.Ok? && fresh(r.value) && fresh(r.value.state) && fresh(r.value.state.surface)
            && conn.log == old(conn.log) + s.requests + [MapWindow(s.result.value)]
            && r.value.Valid() && r.value.i == INITIAL_COUNTER
            && r.value.conn == conn && r.value.root == screen.root && r.value.win == s.result.value
            && r.value.handle == WindowHandle(s.result.value, screen, screenNum)
            && r.value.state.size == (g.width, g.height)
            && r.value.state.config.presentMode == Fifo
            && r.value.state.config.format == format
            && r.value.state.surface.configured == [r.value.state.config])
  {
    var geometry := OverlayGeometry(screen);
    if geometry.Err? {
      return Err(geometry.error);
    }
    var g := geometry.value;
    ghost var log0 := conn.log;
    ghost var s := Overlay.OverlaySetup(screen, g.x, g.y, g.width, g.height, conn.freeIds, conn.atoms);
    var win := Overlay.CreateOverlayWindow(conn, screen, g.x, g.y, g.width, g.height);
    if win.Err? {
      return Err(win.error);
    }
    assert win == s.result && conn.log == log0 + s.requests;
    conn.Send(MapWindow(win.value));
    var handle := WindowHandle(win.value, screen, screenNum);
    var state := new State(handle, format);
    var frameLoop := new FrameLoop(conn, state, screen.root, win.value, handle);
    r := Ok(frameLoop);
  }
}
