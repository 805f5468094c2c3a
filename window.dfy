/** The platform window: its configuration, the state that window events
    update, the queue of pending events and the close request. */
module Windowing {
  import opened Common

  datatype WindowConfig = WindowConfig(
    title: string,
    width: nat,
    height: nat,
    resizable: bool,
    fullscreen: bool,
    vsync: bool,
    targetFps: nat)

  /** `WindowConfig::default` (also `desktop`). */
  function DefaultConfig(): (c: WindowConfig)
    ensures c.width == 1280 && c.height == 720 && c.resizable && !c.fullscreen
    ensures c.vsync && c.targetFps == 60
  {
    WindowConfig("Odeza Engine", 1280, 720, true, false, true, 60)
  }

  /** `WindowConfig::mobile`: size left to the device, fullscreen, fixed. */
  function MobileConfig(): (c: WindowConfig)
    ensures c.width == 0 && c.height == 0 && !c.resizable && c.fullscreen
    ensures c.vsync && c.targetFps == 60
  {
    WindowConfig("Odeza", 0, 0, false, true, true, 60)
  }

  datatype WindowEvent =
    | Resized(width: nat, height: nat)
    | Moved(x: int, y: int)
    | CloseRequested
    | Focused
    | Unfocused
    | Minimized
    | Restored
    | ScaleFactorChanged(scaleFactor: real)
    | RedrawRequested

  datatype WindowState = WindowState(
    width: nat,
    height: nat,
    scaleFactor: real,
    focused: bool,
    minimized: bool,
    fullscreen: bool)

  /** The state a window is created in: the configured size and fullscreen
      flag, scale 1, focused and not minimized. */
  function InitialState(config: WindowConfig): (st: WindowState)
    ensures st.width == config.width && st.height == config.height
    ensures st.fullscreen == config.fullscreen
    ensures st.scaleFactor == 1.0 && st.focused && !st.minimized
  {
    WindowState(config.width, config.height, 1.0, true, false, config.fullscreen)
  }

  /** What one pushed event does to the window state. */
  function StateAfter(st: WindowState, e: WindowEvent): WindowState
  {
    match e
    case Resized(w, h) => st.(width := w, height := h)
    case Focused => st.(focused := true)
    case Unfocused => st.(focused := false)
    case Minimized => st.(minimized := true)
    case Restored => st.(minimized := false)
    case ScaleFactorChanged(f) => st.(scaleFactor := f)
    case _ => st
  }

  /** The state after a sequence of pushed events, in order. */
  function StateAfterAll(st: WindowState, es: seq<WindowEvent>): WindowState
  {
    if es == [] then st else StateAfter(StateAfterAll(st, es[..|es| - 1]), es[|es| - 1])
  }

  /** The close flag after a pushed event. */
  function CloseAfter(closing: bool, e: WindowEvent): (c: bool)
    ensures c <==> closing || e == CloseRequested
  {
    closing || e.CloseRequested?
  }

  /** The close flag after a sequence of pushed events. */
  function CloseAfterAll(closing: bool, es: seq<WindowEvent>): bool
  {
    if es == [] then closing else CloseAfter(CloseAfterAll(closing, es[..|es| - 1]), es[|es| - 1])
  }

  /** The size the last resize in `es` set, if there is one. */
  function LastResize(es: seq<WindowEvent>): Option<(nat, nat)>
  {
    if es == [] then None
    else if es[|es| - 1].Resized? then Some((es[|es| - 1].width, es[|es| - 1].height))
    else LastResize(es[..|es| - 1])
  }

  /** `LastResize` finds nothing exactly when no event is a resize, and
      otherwise the size of a resize that no later resize follows. */
  lemma {:induction false} LastResizeIsLast(es: seq<WindowEvent>)
    ensures LastResize(es).None? <==> forall i :: 0 <= i < |es| ==> !es[i].Resized?
    ensures LastResize(es).Some? ==>
              exists i :: 0 <= i < |es| && es[i] == Resized(LastResize(es).value.0, LastResize(es).value.1) &&
                          forall k :: i < k < |es| ==> !es[k].Resized?
    decreases |es|
  {
    if es != [] {
      var n := |es| - 1;
      if es[n].Resized? {
        assert es[n] == Resized(es[n].width, es[n].height);
      } else {
        var front := es[..n];
        LastResizeIsLast(front);
        assert forall i :: 0 <= i < n ==> front[i] == es[i];
        if LastResize(front).Some? {
          var v := LastResize(front).value;
          var i :| 0 <= i < n && front[i] == Resized(v.0, v.1) && forall k :: i < k < n ==> !front[k].Resized?;
          assert es[i] == Resized(v.0, v.1) && forall k :: i < k < |es| ==> !es[k].Resized?;
        }
      }
    }
  }

  /** Each event changes only the field it names; a resize sets exactly the
      new size; `Moved`, `CloseRequested` and `RedrawRequested` leave the state
      as it was; no event changes the fullscreen flag. */
  lemma EventEffects(st: WindowState, e: WindowEvent)
    ensures StateAfter(st, e).fullscreen == st.fullscreen
    ensures e.Resized? ==> StateAfter(st, e) == st.(width := e.width, height := e.height)
    ensures e == Focused ==> StateAfter(st, e) == st.(focused := true)
    ensures e == Unfocused ==> StateAfter(st, e) == st.(focused := false)
    ensures e == Minimized ==> StateAfter(st, e) == st.(minimized := true)
    ensures e == Restored ==> StateAfter(st, e) == st.(minimized := false)
    ensures e.ScaleFactorChanged? ==> StateAfter(st, e) == st.(scaleFactor := e.scaleFactor)
    ensures e.Moved? || e == CloseRequested || e == RedrawRequested ==> StateAfter(st, e) == st
  {
  }

  /** After any sequence of events the size is the one the last resize set,
      or the starting size when there was none, and the fullscreen flag is
      untouched. */
  lemma {:induction false} SizeIsLastResize(st: WindowState, es: seq<WindowEvent>)
    ensures StateAfterAll(st, es).fullscreen == st.fullscreen
    ensures var s := StateAfterAll(st, es);
            match LastResize(es)
            case None => s.width == st.width && s.height == st.height
            case Some(wh) => s.width == wh.0 && s.height == wh.1
    decreases |es|
  {
    if es != [] {
      SizeIsLastResize(st, es[..|es| - 1]);
      EventEffects(StateAfterAll(st, es[..|es| - 1]), es[|es| - 1]);
    }
  }

  /** Once the close flag is set no event clears it, and starting clear it is
      set exactly when some event was a close request. */
  lemma {:induction false} CloseIsSticky(closing: bool, es: seq<WindowEvent>)
    ensures closing ==> CloseAfterAll(closing, es)
    ensures CloseAfterAll(false, es) <==> CloseRequested in es
    decreases |es|
  {
    if es != [] {
      var front := es[..|es| - 1];
      CloseIsSticky(closing, front);
      assert es == front + [es[|es| - 1]];
      assert CloseRequested in es <==> CloseRequested in front || es[|es| - 1] == CloseRequested;
    }
  }

  class Window {
    const config: WindowConfig
    var state: WindowState
    var events: seq<WindowEvent>
    var shouldClose: bool

    /** `Window::new` (always succeeds). */
    constructor (config: WindowConfig)
      ensures this.config == config && state == InitialState(config)
      ensures events == [] && !shouldClose
    {
      this.config := config;
      state := InitialState(config);
      events := [];
      shouldClose := false;
    }

    /** `state`: a copy of the current state. */
    function State(): (st: WindowState)
      reads this
      ensures st == state
    {
      state
    }

    /** `size`. */
    function Size(): (wh: (nat, nat))
      reads this
      ensures wh.0 == state.width && wh.1 == state.height
    {
      (state.width, state.height)
    }

    /** `should_close`. */
    function ShouldClose(): (b: bool)
      reads this
      ensures b == shouldClose
    {
      shouldClose
    }

    /** `is_focused`. */
    function IsFocused(): (b: bool)
      reads this
      ensures b == state.focused
    {
      state.focused
    }

    /** `is_minimized`. */
    function IsMinimized(): (b: bool)
      reads this
      ensures b == state.minimized
    {
      state.minimized
    }

    /** `request_close`. */
    method RequestClose()
      modifies this
      ensures shouldClose && state == old(state) && events == old(events)
    {
      shouldClose := true;
    }

    /** `poll_events`: hands back every pending event in push order and
        leaves the queue empty. */
    method PollEvents() returns (es: seq<WindowEvent>)
      modifies this
      ensures es == old(events) && events == []
      ensures state == old(state) && shouldClose == old(shouldClose)
    {
      es := events;
      events := [];
    }

    /** `push_event`: the state reacts to the event, a close request sets the
        close flag, and the event joins the end of the queue. */
    method PushEvent(e: WindowEvent)
      modifies this
      ensures state == StateAfter(old(state), e)
      ensures shouldClose == CloseAfter(old(shouldClose), e)
      ensures events == old(events) + [e]
    {
      match e {
        case Resized(w, h) => state := state.(width := w, height := h);
        case Focused => state := state.(focused := true);
        case Unfocused => state := state.(focused := false);
        case Minimized => state := state.(minimized := true);
        case Restored => state := state.(minimized := false);
        case ScaleFactorChanged(f) => state := state.(scaleFactor := f);
        case CloseRequested => shouldClose := true;
        case _ =>
      }
      events := events + [e];
    }

    /** `set_fullscreen`. */
    method SetFullscreen(fullscreen: bool)
      modifies this
      ensures state == old(state).(fullscreen := fullscreen)
      ensures events == old(events) && shouldClose == old(shouldClose)
    {
      state := state.(fullscreen := fullscreen);
    }
  }

  /** Pushing a sequence of events one after another applies them in order. */
  method PushAll(w: Window, es: seq<WindowEvent>)
    modifies w
    ensures w.state == StateAfterAll(old(w.state), es)
    ensures w.shouldClose == CloseAfterAll(old(w.shouldClose), es)
    ensures w.events == old(w.events) + es
  {
    var i := 0;
    while i < |es|
      invariant 0 <= i <= |es|
      invariant w.state == StateAfterAll(old(w.state), es[..i])
      invariant w.shouldClose == CloseAfterAll(old(w.shouldClose), es[..i])
      invariant w.events == old(w.events) + es[..i]
    {
      w.PushEvent(es[i]);
      assert es[..i + 1][..i] == es[..i];
      i := i + 1;
    }
    assert es[..i] == es;
  }

  /** `test_window_creation`, `test_window_events`, `test_window_close`. */
  method WindowScenario()
  {
    var w := new Window(DefaultConfig());
    assert !w.ShouldClose() && w.Size() == (1280, 720);
    w.PushEvent(Resized(1920, 1080));
    var es := w.PollEvents();
    assert |es| == 1 && w.events == [];
    assert w.State().width == 1920 && w.State().height == 1080;
    w.RequestClose();
    assert w.ShouldClose();
    w.PushEvent(Focused);
    assert w.ShouldClose();
  }
}
