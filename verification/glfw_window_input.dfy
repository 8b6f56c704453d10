/** `GlfwWindowInput`: turns the backend's raw per-window callbacks into typed
    events, dispatches each to its window's registry, and answers key and
    mouse-button polls from the backend's cached state. */
module GlfwWindowInput {
  import opened Common
  import opened InputTypes
  import opened InputEvent
  import opened InputEventDispatcher
  import opened WindowEvents

  /** The backend's action codes (`GLFW_RELEASE`, `GLFW_PRESS`,
      `GLFW_REPEAT`), kept symbolic: the model relies only on their being
      three different integers. */
  datatype Actions = Actions(release: int, press: int, repeat: int)

  predicate Distinct(c: Actions) {
    c.release != c.press && c.press != c.repeat && c.release != c.repeat
  }

  /** The raw arguments of the ten backend callbacks, one variant each. */
  datatype NativeCallback =
    | KeyCallback(key: Int32, scanCode: Int32, action: Int32, mods: Int32)
    | CursorEnterCallback(entered: Int32)
    | MouseButtonCallback(button: Int32, buttonAction: Int32, buttonMods: Int32)
    | MouseScrollCallback(scrollX: real, scrollY: real)
    | MousePositionCallback(cursorX: real, cursorY: real)
    | CharCallback(codePoint: UInt32)
    | ResizeCallback(width: Int32, height: Int32)
    | FocusCallback(focused: Int32)
    | CloseCallback
    | PositionCallback(windowX: Int32, windowY: Int32)

  /** `static_cast<InputModifiers::Flags>(mods)`: the two's-complement
      reinterpretation of a signed `int` as a `u32`. */
  function ModsOf(mods: Int32): (f: ModifierFlags)
    ensures mods >= 0 ==> f == mods
    ensures mods < 0 ==> f >= 0x8000_0000
  {
    if mods < 0 then mods + 0x1_0000_0000 else mods
  }

  /** The modifier cast loses no information. */
  lemma ModsRoundTrip(mods: Int32)
    ensures SignedOf(ModsOf(mods)) == mods
  {
  }

  /** The slot each callback feeds (`GetEventDispatcher<E>` with `E` fixed by
      the callback). */
  function Route(cb: NativeCallback): EventType {
    match cb
    case KeyCallback(_, _, _, _) => Key
    case CursorEnterCallback(_) => CursorEnter
    case MouseButtonCallback(_, _, _) => Mouse
    case MouseScrollCallback(_, _) => CursorScroll
    case MousePositionCallback(_, _) => CursorPosition
    case CharCallback(_) => CharInput
    case ResizeCallback(_, _) => WindowResize
    case FocusCallback(_) => WindowFocus
    case CloseCallback => WindowClose
    case PositionCallback(_, _) => WindowPosition
  }

  /** The event a callback builds for window `w`. */
  function EventOf(c: Actions, w: WindowId, cb: NativeCallback): (e: Event)
    ensures e.Sender() == w && !e.WasHandled()
  {
    var p := match cb
      case KeyCallback(key, scanCode, action, mods) =>
        KeyPayload(key, scanCode, ModsOf(mods), action == c.press || action == c.repeat, action == c.repeat)
      case CursorEnterCallback(entered) => CursorEnterPayload(entered != 0)
      case MouseButtonCallback(button, action, mods) => MousePayload(button, ModsOf(mods), action == c.press)
      case MouseScrollCallback(x, y) => CursorScrollPayload(x, y)
      case MousePositionCallback(x, y) => CursorPositionPayload(x, y)
      case CharCallback(codePoint) => CharInputPayload(codePoint)
      case ResizeCallback(width, height) => WindowResizePayload(width, height)
      case FocusCallback(focused) => WindowFocusPayload(focused != 0)
      case CloseCallback => WindowClosePayload
      case PositionCallback(x, y) => WindowPositionPayload(x as real, y as real);
    NewEvent(w, p)
  }

  /** Every callback builds an event of exactly the kind whose slot it
      dispatches to. */
  lemma RouteMatchesEventType(c: Actions, w: WindowId, cb: NativeCallback)
    ensures EventOf(c, w, cb).GetType() == Route(cb)
  {
  }

  /** Every one of the ten slots is fed by some callback. */
  lemma EverySlotHasACallback(t: EventType)
    ensures exists cb :: Route(cb) == t
  {
    match t
    case Key => assert Route(KeyCallback(0, 0, 0, 0)) == t;
    case Mouse => assert Route(MouseButtonCallback(0, 0, 0)) == t;
    case CursorScroll => assert Route(MouseScrollCallback(0.0, 0.0)) == t;
    case CursorPosition => assert Route(MousePositionCallback(0.0, 0.0)) == t;
    case CursorEnter => assert Route(CursorEnterCallback(0)) == t;
    case CharInput => assert Route(CharCallback(0)) == t;
    case WindowClose => assert Route(CloseCallback) == t;
    case WindowFocus => assert Route(FocusCallback(0)) == t;
    case WindowPosition => assert Route(PositionCallback(0, 0)) == t;
    case WindowResize => assert Route(ResizeCallback(0, 0)) == t;
  }

  /** Key callback: key code, scan code and modifiers are carried over; the
      key is down on press and on repeat, and repeating on repeat only. */
  lemma KeyFieldMapping(c: Actions, w: WindowId, key: Int32, scanCode: Int32, action: Int32, mods: Int32)
    requires Distinct(c)
    ensures var p := EventOf(c, w, KeyCallback(key, scanCode, action, mods)).payload;
            && p.key == key && p.scanCode == scanCode && SignedOf(p.modifiers) == mods
            && (p.down <==> action == c.press || action == c.repeat)
            && (p.repeating <==> action == c.repeat)
            && (p.repeating ==> p.down)
            && (action == c.release ==> !p.down && !p.repeating)
            && (action == c.press ==> p.down && !p.repeating)
  {
    ModsRoundTrip(mods);
  }

  /** Mouse-button callback: button and modifiers carried over, pressed on
      press only (a release and any other action both read as released). */
  lemma MouseFieldMapping(c: Actions, w: WindowId, button: Int32, action: Int32, mods: Int32)
    requires Distinct(c)
    ensures var p := EventOf(c, w, MouseButtonCallback(button, action, mods)).payload;
            && p.button == button && SignedOf(p.buttonModifiers) == mods
            && (p.pressed <==> action == c.press)
            && (action == c.release ==> !p.pressed)
  {
    ModsRoundTrip(mods);
  }

  /** Enter and focus flags are C truth values: any non-zero integer is true;
      code points, sizes and coordinates pass through unchanged. */
  lemma FlagAndPassThroughMapping(c: Actions, w: WindowId, n: Int32, u: UInt32, a: Int32, b: Int32)
    ensures EventOf(c, w, CursorEnterCallback(n)).payload.entered <==> n != 0
    ensures EventOf(c, w, FocusCallback(n)).payload.focused <==> n != 0
    ensures EventOf(c, w, CharCallback(u)).payload.unicode == u
    ensures var p := EventOf(c, w, ResizeCallback(a, b)).payload; p.width == a && p.height == b
    ensures var p := EventOf(c, w, PositionCallback(a, b)).payload; p.windowX == a as real && p.windowY == b as real
  {
  }

  /** A backend callback for window `w`: the window is found through the
      backend's user pointer (here a map from window to its registry, which
      must hold `w`), the event is built and dispatched to the slot of its
      own kind in that window's registry only. */
  method OnCallback(c: Actions, windows: map<WindowId, EventMap>, w: WindowId, cb: NativeCallback,
                    react: (Callable, Event) -> bool)
    returns (invoked: seq<Guid>, out: Event)
    requires w in windows && WellFormedMap(windows[w])
    ensures invoked == Tokens(GetEventDispatcher(windows[w], Route(cb)).functions)
    ensures out.Sender() == w && out.payload == EventOf(c, w, cb).payload
  {
    var e := EventOf(c, w, cb);
    RouteMatchesEventType(c, w, cb);
    invoked, out := DispatchEvent(windows[w], e, react);
  }

  /** The backend's cached state of a key after the last key action: a
      repeat leaves the key pressed. An assumption about the backend. */
  function CachedKeyState(c: Actions, action: Int32): int {
    if action == c.repeat then c.press else action
  }

  /** `IsKeyDown(key)`: the backend's cached state of `key` is `press`. */
  function IsKeyDown(c: Actions, keyState: KeyCode -> int, key: KeyCode): bool
  {
    keyState(key) == c.press
  }

  /** `IsMouseDown(button)`: the backend's cached state of `button` is `press`. */
  function IsMouseDown(c: Actions, buttonState: MouseButton -> int, button: MouseButton): bool
  {
    buttonState(button) == c.press
  }

  /** Polling agrees with the last event: after a key callback with action
      `release`, `press` or `repeat`, `IsKeyDown` answers exactly the
      event's `down` flag. */
  lemma KeyPollAgreesWithEvent(c: Actions, w: WindowId, keyState: KeyCode -> int,
                               key: Int32, scanCode: Int32, action: Int32, mods: Int32)
    requires Distinct(c)
    requires action == c.release || action == c.press || action == c.repeat
    requires keyState(key) == CachedKeyState(c, action)
    ensures IsKeyDown(c, keyState, key) <==> EventOf(c, w, KeyCallback(key, scanCode, action, mods)).payload.down
  {
  }

  /** The same for mouse buttons, whose cached state is the last action. */
  lemma MousePollAgreesWithEvent(c: Actions, w: WindowId, buttonState: MouseButton -> int,
                                 button: Int32, action: Int32, mods: Int32)
    requires Distinct(c)
    requires buttonState(button) == action
    ensures IsMouseDown(c, buttonState, button) <==> EventOf(c, w, MouseButtonCallback(button, action, mods)).payload.pressed
  {
  }
}
