/** Input handling: key and mouse-button edge detection, the modifier bits,
    multi-touch phases and gamepads, driven by a stream of input events.
    Positions, deltas and axis dead zones are floating point and not part of
    this model. */
module Input {
  import opened Common

  datatype KeyCode =
    | A | B | C | D | E | F | G | H | I | J | K | L | M
    | N | O | P | Q | R | S | T | U | V | W | X | Y | Z
    | Key0 | Key1 | Key2 | Key3 | Key4 | Key5 | Key6 | Key7 | Key8 | Key9
    | F1 | F2 | F3 | F4 | F5 | F6 | F7 | F8 | F9 | F10 | F11 | F12
    | Space | Enter | Escape | Tab | Backspace | Delete | Insert
    | Home | End | PageUp | PageDown
    | Left | Right | Up | Down
    | LeftShift | RightShift | LeftControl | RightControl | LeftAlt | RightAlt
    | Unknown

  datatype MouseButton = LeftButton | RightButton | MiddleButton | Button4 | Button5

  datatype GamepadButton =
    | South | East | West | North
    | LeftBumper | RightBumper | LeftTriggerButton | RightTriggerButton
    | Select | Start | LeftStick | RightStick
    | DPadUp | DPadDown | DPadLeft | DPadRight

  datatype GamepadAxis = LeftStickX | LeftStickY | RightStickX | RightStickY | LeftTriggerAxis | RightTriggerAxis

  /** An input event; pointer coordinates and wheel deltas are dropped, an axis
      value is kept as the number it stores. */
  datatype InputEvent =
    | KeyPressed(key: KeyCode)
    | KeyReleased(key: KeyCode)
    | MousePressed(button: MouseButton)
    | MouseReleased(button: MouseButton)
    | MouseMoved
    | MouseWheel
    | TouchStarted(touchId: nat)
    | TouchMoved(touchId: nat)
    | TouchEnded(touchId: nat)
    | TouchCancelled(touchId: nat)
    | GamepadConnected(padId: nat)
    | GamepadDisconnected(padId: nat)
    | GamepadButtonPressed(padId: nat, padButton: GamepadButton)
    | GamepadButtonReleased(padId: nat, padButton: GamepadButton)
    | GamepadAxisMoved(padId: nat, axis: GamepadAxis, value: real)
  {
    predicate IsTouch()
    {
      TouchStarted? || TouchMoved? || TouchEnded? || TouchCancelled?
    }

    predicate IsGamepad()
    {
      GamepadConnected? || GamepadDisconnected? || GamepadButtonPressed? || GamepadButtonReleased? ||
      GamepadAxisMoved?
    }
  }

  // ---------------------------------------------------------------------------
  // Modifiers
  // ---------------------------------------------------------------------------

  /** The `Modifiers` bit flags. */
  const SHIFT: bv8 := 0x01
  const CONTROL: bv8 := 0x02
  const ALT: bv8 := 0x04
  const SUPER: bv8 := 0x08

  /** The flag a key drives: either side of shift, control or alt; none for
      the other keys. */
  function ModifierBit(key: KeyCode): (bit: bv8)
    ensures bit == SHIFT <==> key == LeftShift || key == RightShift
    ensures bit == CONTROL <==> key == LeftControl || key == RightControl
    ensures bit == ALT <==> key == LeftAlt || key == RightAlt
    ensures bit == 0 || bit == SHIFT || bit == CONTROL || bit == ALT
  {
    match key
    case LeftShift => SHIFT
    case RightShift => SHIFT
    case LeftControl => CONTROL
    case RightControl => CONTROL
    case LeftAlt => ALT
    case RightAlt => ALT
    case _ => 0
  }

  /** `|=` on the flags. */
  function SetFlag(m: bv8, flag: bv8): bv8 { m | flag }

  /** `-=` on the flags: the difference. */
  function ClearFlag(m: bv8, flag: bv8): bv8 { m & !flag }

  /** `update_modifiers`: a press sets the key's flag, a release clears it. */
  function ModifiersAfter(m: bv8, key: KeyCode, pressed: bool): (r: bv8)
    ensures ModifierBit(key) == 0 ==> r == m
    ensures ModifierBit(key) != 0 && pressed ==> r & ModifierBit(key) == ModifierBit(key)
    ensures ModifierBit(key) != 0 && !pressed ==> r & ModifierBit(key) == 0
    ensures ModifierBit(key) != SHIFT ==> r & SHIFT == m & SHIFT
    ensures ModifierBit(key) != CONTROL ==> r & CONTROL == m & CONTROL
    ensures ModifierBit(key) != ALT ==> r & ALT == m & ALT
    ensures r & SUPER == m & SUPER
  {
    var bit := ModifierBit(key);
    if bit == 0 then m
    else if pressed then SetFlag(m, bit)
    else ClearFlag(m, bit)
  }

  // ---------------------------------------------------------------------------
  // Touch
  // ---------------------------------------------------------------------------

  datatype TouchPhase = Started | Moved | Ended | Cancelled

  /** A touch point without its current and previous positions. */
  datatype TouchPoint = TouchPoint(id: nat, phase: TouchPhase)

  /** The phase a touch event moves its point to. */
  function PhaseOf(e: InputEvent): TouchPhase
    requires e.IsTouch()
  {
    match e
    case TouchStarted(_) => Started
    case TouchMoved(_) => Moved
    case TouchEnded(_) => Ended
    case TouchCancelled(_) => Cancelled
  }

  /** The active touch points by id. */
  datatype TouchState = TouchState(points: map<nat, TouchPoint>)
  {
    /** `TouchState::handle_event`: a start inserts a point, the other touch
        events move a known point to their phase and ignore an unknown id;
        other events are ignored. */
    function HandleEvent(e: InputEvent): (r: TouchState)
      ensures !e.IsTouch() ==> r == this
    {
      match e
      case TouchStarted(id) => TouchState(points[id := TouchPoint(id, Started)])
      case TouchMoved(id) => if id in points then TouchState(points[id := points[id].(phase := Moved)]) else this
      case TouchEnded(id) => if id in points then TouchState(points[id := points[id].(phase := Ended)]) else this
      case TouchCancelled(id) => if id in points then TouchState(points[id := points[id].(phase := Cancelled)]) else this
      case _ => this
    }

    /** `clear_ended`: drops exactly the ended and cancelled points. */
    function ClearEnded(): (r: TouchState)
      ensures forall k :: k in r.points <==> k in points && points[k].phase !in {Ended, Cancelled}
      ensures forall k :: k in r.points ==> r.points[k] == points[k]
    {
      TouchState(map k | k in points && points[k].phase != Ended && points[k].phase != Cancelled :: points[k])
    }

    /** `touch_count`. */
    function TouchCount(): (n: nat)
      ensures n == |points.Keys|
    {
      |points|
    }

    /** `is_touching`. */
    function IsTouching(): (b: bool)
      ensures b <==> points != map[]
    {
      |points| > 0
    }

    /** `get_point`. */
    function GetPoint(id: nat): (r: Option<TouchPoint>)
      ensures r.Some? <==> id in points
      ensures r.Some? ==> r.value == points[id]
    {
      if id in points then Some(points[id]) else None
    }
  }

  /** A start inserts its point, the other touch events move a known point to
      their phase and ignore an unknown id, and no other point changes. */
  lemma TouchEventEffects(t: TouchState, e: InputEvent)
    requires e.IsTouch()
    ensures var r := t.HandleEvent(e);
            r.points.Keys == t.points.Keys + (if e.TouchStarted? then {e.touchId} else {}) &&
            (!e.TouchStarted? && e.touchId !in t.points ==> r == t) &&
            (e.touchId in r.points ==>
               r.points[e.touchId].phase == PhaseOf(e) &&
               r.points[e.touchId].id == (if e.TouchStarted? then e.touchId else t.points[e.touchId].id)) &&
            forall k :: k in t.points && k != e.touchId ==> r.points[k] == t.points[k]
  {
  }

  /** A touch that ends is gone after the next `clear_ended`; one that only
      started or moved stays. */
  lemma EndedTouchIsCleared(t: TouchState, id: nat)
    requires id in t.points
    ensures id !in t.HandleEvent(TouchEnded(id)).ClearEnded().points
    ensures id !in t.HandleEvent(TouchCancelled(id)).ClearEnded().points
    ensures id in t.HandleEvent(TouchMoved(id)).ClearEnded().points
    ensures id in t.HandleEvent(TouchStarted(id)).ClearEnded().points
  {
  }

  // ---------------------------------------------------------------------------
  // Gamepads
  // ---------------------------------------------------------------------------

  /** One gamepad: its id, whether it is connected, the pressed buttons and the
      last value of each reported axis. */
  datatype GamepadState = GamepadState(id: nat, connected: bool, buttons: set<GamepadButton>,
                                       axes: map<GamepadAxis, real>)
  {
    /** `GamepadState::handle_event`: only events carrying this pad's id do
        anything. */
    function HandleEvent(e: InputEvent): GamepadState
    {
      match e
      case GamepadConnected(pid) => if pid == id then this.(connected := true) else this
      case GamepadDisconnected(pid) => if pid == id then this.(connected := false, buttons := {}, axes := map[]) else this
      case GamepadButtonPressed(pid, b) => if pid == id then this.(buttons := buttons + {b}) else this
      case GamepadButtonReleased(pid, b) => if pid == id then this.(buttons := buttons - {b}) else this
      case GamepadAxisMoved(pid, a, v) => if pid == id then this.(axes := axes[a := v]) else this
      case _ => this
    }

    /** `is_button_pressed`. */
    function IsButtonPressed(b: GamepadButton): (r: bool)
      ensures r <==> b in buttons
    {
      b in buttons
    }
  }

  /** A pad keeps its id, and an event for another pad or of another kind
      leaves it as it is. */
  lemma GamepadIgnoresOthers(g: GamepadState, e: InputEvent)
    ensures g.HandleEvent(e).id == g.id
    ensures !(e.IsGamepad() && e.padId == g.id) ==> g.HandleEvent(e) == g
  {
  }

  /** A connection marks the pad connected, a disconnection clears it, a button
      event presses or releases that button and an axis event stores its value;
      each only when it carries the pad's id. */
  lemma GamepadEventEffects(g: GamepadState, e: InputEvent)
    requires e.IsGamepad() && e.padId == g.id
    ensures var r := g.HandleEvent(e);
            match e
            case GamepadConnected(_) => r == g.(connected := true)
            case GamepadDisconnected(_) => !r.connected && r.buttons == {} && r.axes == map[]
            case GamepadButtonPressed(_, b) => r == g.(buttons := g.buttons + {b})
            case GamepadButtonReleased(_, b) => r == g.(buttons := g.buttons - {b})
            case GamepadAxisMoved(_, a, v) => r == g.(axes := g.axes[a := v])
            case _ => false
  {
  }

  /** `GamepadState::new`: disconnected, nothing pressed. */
  function NewGamepad(id: nat): (g: GamepadState)
    ensures g.id == id && !g.connected && g.buttons == {} && g.axes == map[]
  {
    GamepadState(id, false, {}, map[])
  }

  /** Every gamepad is stored under its own id. */
  predicate PadsKeyed(gamepads: map<nat, GamepadState>)
  {
    forall k :: k in gamepads ==> gamepads[k].id == k
  }

  // ---------------------------------------------------------------------------
  // The whole input state, as a value
  // ---------------------------------------------------------------------------

  datatype Input = Input(keysPressed: set<KeyCode>, keysJustPressed: set<KeyCode>, keysJustReleased: set<KeyCode>,
                         mouseButtons: set<MouseButton>, mouseJustPressed: set<MouseButton>,
                         mouseJustReleased: set<MouseButton>, modifiers: bv8, touch: TouchState,
                         gamepads: map<nat, GamepadState>)

  /** A pad that joins the table on connection. */
  function PadFor(gamepads: map<nat, GamepadState>, id: nat): GamepadState
  {
    if id in gamepads then gamepads[id] else NewGamepad(id)
  }

  /** `InputState::handle_event` on the modelled state: keys and buttons with
      edge detection, modifiers from keys, a connection that creates its pad,
      and every other event handed to the touch state and to each pad. */
  function Handle(s: Input, e: InputEvent): Input
  {
    match e
    case KeyPressed(k) =>
      var s1 := if k in s.keysPressed then s
                else s.(keysPressed := s.keysPressed + {k}, keysJustPressed := s.keysJustPressed + {k});
      s1.(modifiers := ModifiersAfter(s.modifiers, k, true))
    case KeyReleased(k) =>
      var s1 := if k in s.keysPressed
                then s.(keysPressed := s.keysPressed - {k}, keysJustReleased := s.keysJustReleased + {k})
                else s;
      s1.(modifiers := ModifiersAfter(s.modifiers, k, false))
    case MousePressed(b) =>
      if b in s.mouseButtons then s
      else s.(mouseButtons := s.mouseButtons + {b}, mouseJustPressed := s.mouseJustPressed + {b})
    case MouseReleased(b) =>
      if b in s.mouseButtons
      then s.(mouseButtons := s.mouseButtons - {b}, mouseJustReleased := s.mouseJustReleased + {b})
      else s
    case MouseMoved => s
    case MouseWheel => s
    case GamepadConnected(id) => s.(gamepads := s.gamepads[id := PadFor(s.gamepads, id).HandleEvent(e)])
    case _ => s.(touch := s.touch.HandleEvent(e), gamepads := ForwardToPads(s.gamepads, e))
  }

  /** Every pad handles the event. */
  function ForwardToPads(gamepads: map<nat, GamepadState>, e: InputEvent): (r: map<nat, GamepadState>)
    ensures r.Keys == gamepads.Keys
    ensures forall k :: k in r ==> r[k] == gamepads[k].HandleEvent(e)
  {
    map k | k in gamepads :: gamepads[k].HandleEvent(e)
  }

  /** The loop over every pad in the default branch of `handle_event`: the
      pads are visited in an unspecified order and each is replaced by its
      reaction `react`. */
  method HandleEachPad(pads: map<nat, GamepadState>, react: GamepadState -> GamepadState)
    returns (r: map<nat, GamepadState>)
    ensures r.Keys == pads.Keys
    ensures forall k :: k in r ==> r[k] == react(pads[k])
  {
    r := pads;
    var todo := pads.Keys;
    while todo != {}
      invariant todo <= pads.Keys && r.Keys == pads.Keys
      invariant forall k :: k in pads ==> r[k] == if k in todo then pads[k] else react(pads[k])
      decreases |todo|
    {
      var k :| k in todo;
      r := r[k := react(pads[k])];
      todo := todo - {k};
    }
  }

  /** `end_frame` on the modelled state. */
  function EndFrameOf(s: Input): (r: Input)
    ensures r.keysJustPressed == {} && r.keysJustReleased == {}
    ensures r.mouseJustPressed == {} && r.mouseJustReleased == {}
    ensures r.keysPressed == s.keysPressed && r.mouseButtons == s.mouseButtons
    ensures r.modifiers == s.modifiers && r.gamepads == s.gamepads
    ensures r.touch == s.touch.ClearEnded()
  {
    s.(keysJustPressed := {}, keysJustReleased := {}, mouseJustPressed := {}, mouseJustReleased := {},
       touch := s.touch.ClearEnded())
  }

  /** A modifier flag is only set while a key of that modifier is held, and the
      super flag is never set. */
  predicate ModifiersSound(s: Input)
  {
    (s.modifiers & SHIFT != 0 ==> LeftShift in s.keysPressed || RightShift in s.keysPressed) &&
    (s.modifiers & CONTROL != 0 ==> LeftControl in s.keysPressed || RightControl in s.keysPressed) &&
    (s.modifiers & ALT != 0 ==> LeftAlt in s.keysPressed || RightAlt in s.keysPressed) &&
    s.modifiers & SUPER == 0
  }

  predicate InputInv(s: Input)
  {
    PadsKeyed(s.gamepads) && ModifiersSound(s)
  }

  /** A key press holds the key; it is just pressed now if it already was or
      if it was not held before; the just-released set is untouched. */
  lemma KeyPressEdges(s: Input, k: KeyCode)
    ensures k in Handle(s, KeyPressed(k)).keysPressed
    ensures k in Handle(s, KeyPressed(k)).keysJustPressed <==> k in s.keysJustPressed || k !in s.keysPressed
    ensures Handle(s, KeyPressed(k)).keysJustReleased == s.keysJustReleased
  {
  }

  /** A key release lets the key go; it is just released now if it already
      was or if it was held before; the just-pressed set is untouched. */
  lemma KeyReleaseEdges(s: Input, k: KeyCode)
    ensures k !in Handle(s, KeyReleased(k)).keysPressed
    ensures k in Handle(s, KeyReleased(k)).keysJustReleased <==> k in s.keysJustReleased || k in s.keysPressed
    ensures Handle(s, KeyReleased(k)).keysJustPressed == s.keysJustPressed
  {
  }

  /** A key or button becomes just pressed or just released only through the
      event that presses or releases it while it is up or held. */
  lemma {:induction false} EdgesNeedTransitions(s: Input, e: InputEvent)
    ensures forall k :: k in Handle(s, e).keysJustPressed - s.keysJustPressed ==>
                          e == KeyPressed(k) && k !in s.keysPressed
    ensures forall k :: k in Handle(s, e).keysJustReleased - s.keysJustReleased ==>
                          e == KeyReleased(k) && k in s.keysPressed
    ensures forall b :: b in Handle(s, e).mouseJustPressed - s.mouseJustPressed ==>
                          e == MousePressed(b) && b !in s.mouseButtons
    ensures forall b :: b in Handle(s, e).mouseJustReleased - s.mouseJustReleased ==>
                          e == MouseReleased(b) && b in s.mouseButtons
  {
    match e
    case KeyPressed(k) =>
    case KeyReleased(k) =>
    case MousePressed(b) =>
    case MouseReleased(b) =>
    case MouseMoved =>
    case MouseWheel =>
    case GamepadConnected(id) =>
    case _ =>
      assert Handle(s, e).keysJustPressed == s.keysJustPressed && Handle(s, e).keysJustReleased == s.keysJustReleased;
  }

  /** Releasing either key of a modifier clears its flag even while the other
      side is still held. */
  lemma ReleaseClearsSharedModifier(s: Input, k: KeyCode)
    requires ModifierBit(k) != 0
    ensures Handle(s, KeyReleased(k)).modifiers & ModifierBit(k) == 0
  {
  }

  /** Events and frame ends keep the invariant. */
  lemma HandleKeepsInv(s: Input, e: InputEvent)
    requires InputInv(s)
    ensures InputInv(Handle(s, e))
  {
    var r := Handle(s, e);
    if e.KeyPressed? || e.KeyReleased? {
      var k := e.key;
      var bit := ModifierBit(k);
      assert r.modifiers == ModifiersAfter(s.modifiers, k, e.KeyPressed?);
      assert r.modifiers & SUPER == 0 by {
        assert SUPER != bit;
      }
    } else if e.GamepadConnected? {
      assert PadFor(s.gamepads, e.padId).id == e.padId;
    }
  }

  lemma EndFrameKeepsInv(s: Input)
    requires InputInv(s)
    ensures InputInv(EndFrameOf(s))
  {
  }

  /** A connection creates the pad when it is new, keeps its buttons otherwise,
      and marks it connected; no other pad changes. */
  lemma ConnectCreatesPad(s: Input, id: nat)
    requires PadsKeyed(s.gamepads)
    ensures var r := Handle(s, GamepadConnected(id));
            id in r.gamepads && r.gamepads[id].connected && r.gamepads[id].id == id &&
            (id !in s.gamepads ==> r.gamepads[id].buttons == {}) &&
            (id in s.gamepads ==> r.gamepads[id].buttons == s.gamepads[id].buttons) &&
            forall k :: k in s.gamepads && k != id ==> k in r.gamepads && r.gamepads[k] == s.gamepads[k]
  {
  }

  /** A button event reaches only the pad with its id. */
  lemma ButtonReachesOnlyItsPad(s: Input, id: nat, b: GamepadButton)
    requires PadsKeyed(s.gamepads)
    ensures var r := Handle(s, GamepadButtonPressed(id, b));
            r.gamepads.Keys == s.gamepads.Keys &&
            (id in r.gamepads ==> r.gamepads[id].buttons == s.gamepads[id].buttons + {b}) &&
            forall k :: k in s.gamepads && k != id ==> r.gamepads[k] == s.gamepads[k]
  {
  }

  /** A disconnection clears that pad's buttons and axes and marks it
      disconnected. */
  lemma DisconnectClearsPad(s: Input, id: nat)
    requires PadsKeyed(s.gamepads) && id in s.gamepads
    ensures var r := Handle(s, GamepadDisconnected(id));
            id in r.gamepads && !r.gamepads[id].connected && r.gamepads[id].buttons == {} &&
            r.gamepads[id].axes == map[]
  {
  }

  // ---------------------------------------------------------------------------
  // The input state object
  // ---------------------------------------------------------------------------

  class InputState {
    var keysPressed: set<KeyCode>
    var keysJustPressed: set<KeyCode>
    var keysJustReleased: set<KeyCode>
    var mouseButtons: set<MouseButton>
    var mouseJustPressed: set<MouseButton>
    var mouseJustReleased: set<MouseButton>
    var modifiers: bv8
    var touch: TouchState
    var gamepads: map<nat, GamepadState>

    ghost function State(): Input
      reads this
    {
      Input(keysPressed, keysJustPressed, keysJustReleased, mouseButtons, mouseJustPressed,
            mouseJustReleased, modifiers, touch, gamepads)
    }

    ghost predicate Valid()
      reads this
    {
      InputInv(State())
    }

    /** `InputState::new`. */
    constructor ()
      ensures Valid()
      ensures State() == Input({}, {}, {}, {}, {}, {}, 0, TouchState(map[]), map[])
    {
      keysPressed, keysJustPressed, keysJustReleased := {}, {}, {};
      mouseButtons, mouseJustPressed, mouseJustReleased := {}, {}, {};
      modifiers := 0;
      touch := TouchState(map[]);
      gamepads := map[];
    }

    /** `handle_event`. */
    method HandleEvent(e: InputEvent)
      requires Valid()
      modifies this
      ensures Valid()
      ensures State() == Handle(old(State()), e)
    {
      HandleKeepsInv(State(), e);
      match e
      case KeyPressed(k) => PressKey(k);
      case KeyReleased(k) => ReleaseKey(k);
      case MousePressed(b) => PressMouse(b);
      case MouseReleased(b) => ReleaseMouse(b);
      case MouseMoved =>
      case MouseWheel =>
      case GamepadConnected(id) => ConnectGamepad(id);
      case _ =>
        touch := touch.HandleEvent(e);
        HandleGamepads(e);
    }

    /** The key-press branch of `handle_event`. */
    method PressKey(k: KeyCode)
      modifies this
      ensures State() == Handle(old(State()), KeyPressed(k))
    {
      if k !in keysPressed {
        keysPressed := keysPressed + {k};
        keysJustPressed := keysJustPressed + {k};
      }
      UpdateModifiers(k, true);
    }

    /** The key-release branch of `handle_event`. */
    method ReleaseKey(k: KeyCode)
      modifies this
      ensures State() == Handle(old(State()), KeyReleased(k))
    {
      if k in keysPressed {
        keysPressed := keysPressed - {k};
        keysJustReleased := keysJustReleased + {k};
      }
      UpdateModifiers(k, false);
    }

    /** The mouse-press branch of `handle_event`. */
    method PressMouse(b: MouseButton)
      modifies this
      ensures State() == Handle(old(State()), MousePressed(b))
    {
      if b !in mouseButtons {
        mouseButtons := mouseButtons + {b};
        mouseJustPressed := mouseJustPressed + {b};
      }
    }

    /** The mouse-release branch of `handle_event`. */
    method ReleaseMouse(b: MouseButton)
      modifies this
      ensures State() == Handle(old(State()), MouseReleased(b))
    {
      if b in mouseButtons {
        mouseButtons := mouseButtons - {b};
        mouseJustReleased := mouseJustReleased + {b};
      }
    }

    /** The connection branch of `handle_event`: the pad is created when it is
        new, then handles the event. */
    method ConnectGamepad(id: nat)
      modifies this
      ensures State() == Handle(old(State()), GamepadConnected(id))
    {
      if id !in gamepads {
        gamepads := gamepads[id := NewGamepad(id)];
      }
      gamepads := gamepads[id := gamepads[id].HandleEvent(GamepadConnected(id))];
    }

    /** `update_modifiers`. */
    method UpdateModifiers(key: KeyCode, pressed: bool)
      modifies this
      ensures State() == old(State()).(modifiers := ModifiersAfter(old(modifiers), key, pressed))
    {
      var bit := ModifierBit(key);
      if bit == 0 {
        return;
      }
      if pressed {
        modifiers := SetFlag(modifiers, bit);
      } else {
        modifiers := ClearFlag(modifiers, bit);
      }
    }

    /** The default branch of `handle_event` for the pads. */
    method HandleGamepads(e: InputEvent)
      modifies this
      ensures State() == old(State()).(gamepads := ForwardToPads(old(gamepads), e))
    {
      gamepads := HandleEachPad(gamepads, (g: GamepadState) => g.HandleEvent(e));
    }

    /** `end_frame`. */
    method EndFrame()
      requires Valid()
      modifies this
      ensures Valid()
      ensures State() == EndFrameOf(old(State()))
    {
      EndFrameKeepsInv(State());
      keysJustPressed, keysJustReleased := {}, {};
      mouseJustPressed, mouseJustReleased := {}, {};
      touch := touch.ClearEnded();
    }

    /** `is_key_pressed`. */
    function IsKeyPressed(key: KeyCode): (b: bool)
      reads this
      ensures b <==> key in keysPressed
    {
      key in keysPressed
    }

    /** `is_key_just_pressed`. */
    function IsKeyJustPressed(key: KeyCode): (b: bool)
      reads this
      ensures b <==> key in keysJustPressed
    {
      key in keysJustPressed
    }

    /** `is_key_just_released`. */
    function IsKeyJustReleased(key: KeyCode): (b: bool)
      reads this
      ensures b <==> key in keysJustReleased
    {
      key in keysJustReleased
    }

    /** `is_mouse_pressed`. */
    function IsMousePressed(button: MouseButton): (b: bool)
      reads this
      ensures b <==> button in mouseButtons
    {
      button in mouseButtons
    }

    /** `is_mouse_just_pressed`. */
    function IsMouseJustPressed(button: MouseButton): (b: bool)
      reads this
      ensures b <==> button in mouseJustPressed
    {
      button in mouseJustPressed
    }

    /** `modifiers().contains(flag)`. */
    function HasModifier(flag: bv8): (b: bool)
      reads this
      ensures b <==> modifiers & flag == flag
    {
      modifiers & flag == flag
    }

    /** `gamepad`. */
    function Gamepad(id: nat): (r: Option<GamepadState>)
      reads this
      ensures r.Some? <==> id in gamepads
      ensures r.Some? ==> r.value == gamepads[id] && (Valid() ==> r.value.id == id)
    {
      if id in gamepads then Some(gamepads[id]) else None
    }
  }

  // ---------------------------------------------------------------------------
  // Scenarios from the unit tests
  // ---------------------------------------------------------------------------

  method KeyScenario()
  {
    var input := new InputState();
    input.HandleEvent(KeyPressed(Space));
    assert input.IsKeyPressed(Space) && input.IsKeyJustPressed(Space);
    input.EndFrame();
    assert input.IsKeyPressed(Space) && !input.IsKeyJustPressed(Space);
    input.HandleEvent(KeyReleased(Space));
    assert !input.IsKeyPressed(Space) && input.IsKeyJustReleased(Space);
  }

  method TouchScenario()
  {
    var input := new InputState();
    input.HandleEvent(TouchStarted(0));
    assert input.touch.IsTouching() && input.touch.TouchCount() == 1;
    input.HandleEvent(TouchEnded(0));
    input.touch := input.touch.ClearEnded();
    assert input.touch.points.Keys == {};
    assert !input.touch.IsTouching();
  }

  method GamepadScenario()
  {
    var input := new InputState();
    input.HandleEvent(GamepadConnected(0));
    var pad := input.Gamepad(0);
    assert pad.Some? && pad.value.connected;
    input.HandleEvent(GamepadButtonPressed(0, South));
    pad := input.Gamepad(0);
    assert pad.Some? && pad.value.IsButtonPressed(South);
  }

  method ModifierScenario()
  {
    var input := new InputState();
    input.HandleEvent(KeyPressed(LeftShift));
    assert input.HasModifier(SHIFT);
    input.HandleEvent(KeyPressed(LeftControl));
    assert input.HasModifier(SHIFT | CONTROL);
  }
}
