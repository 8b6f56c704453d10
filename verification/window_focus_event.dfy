/** `WindowFocusEvent`: the window gained or lost input focus. */
module WindowFocusEvent {
  import opened InputEvent

  /** Constructs the event for `sender` with the focus state `focused`. */
  function New(sender: WindowId, focused: bool): (e: Event)
    ensures e.payload == WindowFocusPayload(focused)
    ensures e.GetType() == WindowFocus && e.Sender() == sender && !e.WasHandled()
  {
    NewEvent(sender, WindowFocusPayload(focused))
  }

  /** The overridden `GetType()` of the class. */
  function GetType(): EventType {
    WindowFocus
  }

  /** `GetName()`. */
  function GetName(): string {
    "WindowFocusEvent"
  }

  /** `ToString()`. */
  function ToString(e: Event): string
    requires e.payload.WindowFocusPayload?
  {
    "Window " + (if e.payload.focused then "Focussed" else "Unfocussed")
  }

  /** The overridden `GetType()` equals the static `Type`, and the name and
      the two string forms are the fixed texts of the class. */
  lemma FocusStrings(sender: WindowId)
    ensures New(sender, true).GetType() == GetType() == WindowFocus
    ensures GetName() == "WindowFocusEvent"
    ensures ToString(New(sender, true)) == "Window Focussed"
    ensures ToString(New(sender, false)) == "Window Unfocussed"
  {
  }

  /** The string form determines the focus state. */
  lemma ToStringInjective(s1: WindowId, f1: bool, s2: WindowId, f2: bool)
    ensures ToString(New(s1, f1)) == ToString(New(s2, f2)) <==> f1 == f2
  {
    if f1 != f2 {
      var a, b := ToString(New(s1, f1)), ToString(New(s2, f2));
      assert a[7] != b[7];
    }
  }
}
