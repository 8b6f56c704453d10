/** The event taxonomy: the ten event kinds, their payloads, and the common
    base every event shares (sender window, handled flag, type tag). */
module InputEvent {
  import opened Common
  import opened InputTypes

  /** The ten dispatchable event kinds, in enum order. */
  datatype EventType =
    | Key | Mouse | CursorScroll | CursorPosition | CursorEnter
    | CharInput | WindowClose | WindowFocus | WindowPosition | WindowResize

  /** The enum's two non-event values. */
  const UNKNOWN: int := -1
  const COUNT: int := 10

  /** The integer value of an event kind in the `InputEventType` enum. */
  function Ordinal(t: EventType): (n: int)
    ensures 0 <= n < COUNT
  {
    match t
    case Key => 0
    case Mouse => 1
    case CursorScroll => 2
    case CursorPosition => 3
    case CursorEnter => 4
    case CharInput => 5
    case WindowClose => 6
    case WindowFocus => 7
    case WindowPosition => 8
    case WindowResize => 9
  }

  /** The event kind with a given enum value; `Unknown`, `COUNT` and every
      other integer name no event kind. */
  function FromOrdinal(n: int): (t: Option<EventType>)
    ensures t.Some? <==> 0 <= n < COUNT
  {
    if n == 0 then Some(Key)
    else if n == 1 then Some(Mouse)
    else if n == 2 then Some(CursorScroll)
    else if n == 3 then Some(CursorPosition)
    else if n == 4 then Some(CursorEnter)
    else if n == 5 then Some(CharInput)
    else if n == 6 then Some(WindowClose)
    else if n == 7 then Some(WindowFocus)
    else if n == 8 then Some(WindowPosition)
    else if n == 9 then Some(WindowResize)
    else None
  }

  /** The enum numbering is a bijection between the ten kinds and 0..9. */
  lemma OrdinalBijection()
    ensures forall t :: FromOrdinal(Ordinal(t)) == Some(t)
    ensures forall n :: 0 <= n < COUNT ==> FromOrdinal(n).Some? && Ordinal(FromOrdinal(n).value) == n
    ensures forall t, u :: Ordinal(t) == Ordinal(u) ==> t == u
    ensures FromOrdinal(UNKNOWN) == None && FromOrdinal(COUNT) == None
  {
    forall t ensures FromOrdinal(Ordinal(t)) == Some(t) {
      match t
      case Key =>
      case Mouse =>
      case CursorScroll =>
      case CursorPosition =>
      case CursorEnter =>
      case CharInput =>
      case WindowClose =>
      case WindowFocus =>
      case WindowPosition =>
      case WindowResize =>
    }
  }

  /** An opaque identity for the window that produced an event. */
  type WindowId = nat

  /** The immutable, kind-specific part of an event. Floating-point
      coordinates are carried as reals. */
  datatype Payload =
    | KeyPayload(key: KeyCode, scanCode: Int32, modifiers: ModifierFlags, down: bool, repeating: bool)
    | MousePayload(button: MouseButton, buttonModifiers: ModifierFlags, pressed: bool)
    | CursorScrollPayload(scrollX: real, scrollY: real)
    | CursorPositionPayload(cursorX: real, cursorY: real)
    | CursorEnterPayload(entered: bool)
    | CharInputPayload(unicode: UInt32)
    | WindowClosePayload
    | WindowFocusPayload(focused: bool)
    | WindowPositionPayload(windowX: real, windowY: real)
    | WindowResizePayload(width: int, height: int)

  /** The static `Type` of the event class that carries a payload. */
  function TypeOf(p: Payload): EventType {
    match p
    case KeyPayload(_, _, _, _, _) => Key
    case MousePayload(_, _, _) => Mouse
    case CursorScrollPayload(_, _) => CursorScroll
    case CursorPositionPayload(_, _) => CursorPosition
    case CursorEnterPayload(_) => CursorEnter
    case CharInputPayload(_) => CharInput
    case WindowClosePayload => WindowClose
    case WindowFocusPayload(_) => WindowFocus
    case WindowPositionPayload(_, _) => WindowPosition
    case WindowResizePayload(_, _) => WindowResize
  }

  /** An event: the sender window, the mutable handled flag, and the payload. */
  datatype Event = Event(sender: WindowId, handled: bool, payload: Payload)
  {
    /** `GetType()`: the event's runtime type tag. */
    function GetType(): EventType {
      TypeOf(payload)
    }

    /** `Sender()`. */
    function Sender(): WindowId {
      sender
    }

    /** `WasHandled()`. */
    function WasHandled(): bool {
      handled
    }

    /** The same event with only the handled flag replaced. */
    function WithHandled(b: bool): (e: Event)
      ensures e.WasHandled() == b
      ensures e.Sender() == Sender() && e.payload == payload && e.GetType() == GetType()
    {
      this.(handled := b)
    }
  }

  /** Constructs an event of the payload's kind for `sender`. */
  function NewEvent(sender: WindowId, p: Payload): (e: Event)
    ensures !e.WasHandled()
    ensures e.Sender() == sender
    ensures e.payload == p && e.GetType() == TypeOf(p)
  {
    Event(sender, false, p)
  }

  /** Two events built from different payloads or senders differ: construction
      loses nothing. */
  lemma NewEventInjective(s1: WindowId, p1: Payload, s2: WindowId, p2: Payload)
    ensures NewEvent(s1, p1) == NewEvent(s2, p2) <==> s1 == s2 && p1 == p2
  {
  }
}
