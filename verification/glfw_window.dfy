/** `GlfwWindow`: the window operations that are pure state changes on the
    backend window — cursor mode, window state, the should-close flag and the
    cursor image — together with the `IWindow` helpers built on them. */
module GlfwWindow {
  import opened Common
  import opened Window

  /** The backend's cursor input-mode values (`GLFW_CURSOR_NORMAL`,
      `GLFW_CURSOR_HIDDEN`, `GLFW_CURSOR_DISABLED`), kept symbolic. */
  datatype CursorModes = CursorModes(normal: int, hidden: int, disabled: int)

  predicate DistinctModes(c: CursorModes) {
    c.normal != c.hidden && c.hidden != c.disabled && c.normal != c.disabled
  }

  /** The part of the backend window these operations read and write: the
      cursor input mode, the iconified and maximized attributes, the
      should-close flag and the cursor image (`None` is the default cursor). */
  datatype NativeWindow = NativeWindow(cursorMode: int, iconified: bool, maximized: bool,
                                       shouldClose: bool, cursor: Option<nat>)

  /** The backend value `SetCursorMode` selects for a mode. */
  function BackendMode(c: CursorModes, m: CursorMode): int {
    match m
    case CursorNormal => c.normal
    case CursorHidden => c.hidden
    case CursorLocked => c.disabled
  }

  /** `SetCursorMode(mode)`: only the cursor input mode changes. */
  function SetCursorMode(c: CursorModes, w: NativeWindow, m: CursorMode): (w': NativeWindow)
    ensures w'.cursorMode in {c.normal, c.hidden, c.disabled}
    ensures w' == w.(cursorMode := w'.cursorMode)
  {
    w.(cursorMode := BackendMode(c, m))
  }

  /** `GetCursorMode()`: the mode the backend value names; any other value
      reads as `Normal`. */
  function GetCursorMode(c: CursorModes, w: NativeWindow): (m: CursorMode)
    ensures w.cursorMode !in {c.normal, c.hidden, c.disabled} ==> m == CursorNormal
  {
    if w.cursorMode == c.normal then CursorNormal
    else if w.cursorMode == c.hidden then CursorHidden
    else if w.cursorMode == c.disabled then CursorLocked
    else CursorNormal
  }

  /** Setting a mode and reading it back gives that mode. */
  lemma CursorModeRoundTrip(c: CursorModes, w: NativeWindow, m: CursorMode)
    requires DistinctModes(c)
    ensures GetCursorMode(c, SetCursorMode(c, w, m)) == m
  {
  }

  /** Reading is a left inverse of the mapping exactly on the three backend
      values: a read mode `m` comes either from `BackendMode(m)` or, for
      `Normal` only, from an unknown value. */
  lemma GetCursorModeInverse(c: CursorModes, w: NativeWindow, m: CursorMode)
    requires DistinctModes(c)
    ensures GetCursorMode(c, w) == m <==>
            w.cursorMode == BackendMode(c, m)
            || (m == CursorNormal && w.cursorMode !in {c.normal, c.hidden, c.disabled})
  {
  }

  /** `SetCursorVisible(b)`: normal when visible, hidden otherwise. */
  function SetCursorVisible(c: CursorModes, w: NativeWindow, visible: bool): (w': NativeWindow)
    ensures w' == w.(cursorMode := w'.cursorMode)
  {
    w.(cursorMode := if visible then c.normal else c.hidden)
  }

  /** `SetCursorLockedToWindow(b)`: disabled when locked, normal otherwise. */
  function SetCursorLockedToWindow(c: CursorModes, w: NativeWindow, locked: bool): (w': NativeWindow)
    ensures w' == w.(cursorMode := w'.cursorMode)
  {
    w.(cursorMode := if locked then c.disabled else c.normal)
  }

  /** The two boolean setters agree with `SetCursorMode` and read back as
      the mode they name. */
  lemma CursorSettersAgree(c: CursorModes, w: NativeWindow, b: bool)
    requires DistinctModes(c)
    ensures SetCursorVisible(c, w, b) == SetCursorMode(c, w, if b then CursorNormal else CursorHidden)
    ensures SetCursorLockedToWindow(c, w, b) == SetCursorMode(c, w, if b then CursorLocked else CursorNormal)
    ensures GetCursorMode(c, SetCursorVisible(c, w, b)) == (if b then CursorNormal else CursorHidden)
    ensures GetCursorMode(c, SetCursorLockedToWindow(c, w, b)) == (if b then CursorLocked else CursorNormal)
  {
    CursorModeRoundTrip(c, w, if b then CursorNormal else CursorHidden);
    CursorModeRoundTrip(c, w, if b then CursorLocked else CursorNormal);
  }

  /** `SetWindowState(state)`: iconify, maximize or restore. The effect on
      the backend's attributes is an assumption about the backend: iconifying
      sets the iconified attribute, maximizing sets maximized and clears
      iconified, restoring clears both. */
  function SetWindowState(w: NativeWindow, s: WindowState): (w': NativeWindow)
    ensures w'.cursorMode == w.cursorMode && w'.shouldClose == w.shouldClose && w'.cursor == w.cursor
  {
    match s
    case Minimized => w.(iconified := true)
    case Maximized => w.(iconified := false, maximized := true)
    case Normal => w.(iconified := false, maximized := false)
  }

  /** `GetWindowState()`: iconified wins over maximized; neither is normal. */
  function GetWindowState(w: NativeWindow): (s: WindowState)
    ensures s == Minimized <==> w.iconified
    ensures s == Maximized <==> !w.iconified && w.maximized
    ensures s == Normal <==> !w.iconified && !w.maximized
  {
    if w.iconified then Minimized
    else if w.maximized then Maximized
    else Normal
  }

  /** Setting a state and reading it back gives that state, whatever the
      window's previous attributes. */
  lemma WindowStateRoundTrip(w: NativeWindow, s: WindowState)
    ensures GetWindowState(SetWindowState(w, s)) == s
  {
  }

  /** `IWindow::Minimize`: the window reads back as minimized; cursor and
      close state are untouched. */
  function Minimize(w: NativeWindow): (w': NativeWindow)
    ensures GetWindowState(w') == Minimized
    ensures w'.cursorMode == w.cursorMode && w'.shouldClose == w.shouldClose && w'.cursor == w.cursor
  {
    SetWindowState(w, Minimized)
  }

  /** `IWindow::Maximize`: the window reads back as maximized, even when it
      was minimized; cursor and close state are untouched. */
  function Maximize(w: NativeWindow): (w': NativeWindow)
    ensures GetWindowState(w') == Maximized
    ensures w'.cursorMode == w.cursorMode && w'.shouldClose == w.shouldClose && w'.cursor == w.cursor
  {
    SetWindowState(w, Maximized)
  }

  /** `IWindow::Restore`: the window reads back as normal; cursor and close
      state are untouched. */
  function Restore(w: NativeWindow): (w': NativeWindow)
    ensures GetWindowState(w') == Normal
    ensures w'.cursorMode == w.cursorMode && w'.shouldClose == w.shouldClose && w'.cursor == w.cursor
  {
    SetWindowState(w, Normal)
  }

  /** `IWindow::IsMinimized`: exactly when the backend reports the window
      iconified. */
  predicate IsMinimized(w: NativeWindow)
    ensures IsMinimized(w) <==> w.iconified
  {
    GetWindowState(w) == Minimized
  }

  /** `IWindow::IsMaximized`: exactly when the backend reports the window
      maximized and not iconified. */
  predicate IsMaximized(w: NativeWindow)
    ensures IsMaximized(w) <==> w.maximized && !w.iconified
  {
    GetWindowState(w) == Maximized
  }

  /** The helpers do what they say, and a window is never both minimized and
      maximized. */
  lemma StateHelpers(w: NativeWindow)
    ensures IsMinimized(Minimize(w)) && !IsMaximized(Minimize(w))
    ensures IsMaximized(Maximize(w)) && !IsMinimized(Maximize(w))
    ensures !IsMinimized(Restore(w)) && !IsMaximized(Restore(w))
    ensures !(IsMinimized(w) && IsMaximized(w))
  {
    WindowStateRoundTrip(w, Minimized);
    WindowStateRoundTrip(w, Maximized);
    WindowStateRoundTrip(w, Normal);
  }

  /** `Close()`: marks the window as should-close, nothing else. */
  function Close(w: NativeWindow): (w': NativeWindow)
    ensures w'.shouldClose
    ensures w' == w.(shouldClose := w'.shouldClose)
  {
    w.(shouldClose := true)
  }

  /** `CancelClose()`: unmarks it, nothing else. */
  function CancelClose(w: NativeWindow): (w': NativeWindow)
    ensures !w'.shouldClose
    ensures w' == w.(shouldClose := w'.shouldClose)
  {
    w.(shouldClose := false)
  }

  /** `ShouldClose()`: the backend's should-close mark. */
  predicate ShouldClose(w: NativeWindow) { w.shouldClose }

  /** Cancelling undoes closing on a window that was not marked, and both are
      idempotent. */
  lemma CloseCancelClose(w: NativeWindow)
    ensures !ShouldClose(w) ==> CancelClose(Close(w)) == w
    ensures ShouldClose(w) ==> Close(CancelClose(w)) == w
    ensures Close(Close(w)) == Close(w) && CancelClose(CancelClose(w)) == CancelClose(w)
  {
  }

  /** `SetCursor(cursor)`: a null cursor selects the default cursor image; a
      non-null one selects that cursor's backend image. Nothing else changes. */
  function SetCursor(w: NativeWindow, cursor: Option<nat>): (w': NativeWindow)
    ensures cursor.None? ==> w'.cursor.None?
    ensures cursor.Some? ==> w'.cursor == cursor
    ensures w' == w.(cursor := w'.cursor)
  {
    match cursor
    case None => w.(cursor := None)
    case Some(image) => w.(cursor := Some(image))
  }

  /** The last cursor set is the one in effect, and setting the cursor image
      and the cursor mode do not interfere. */
  lemma SetCursorLastWins(c: CursorModes, w: NativeWindow, a: Option<nat>, b: Option<nat>, m: CursorMode)
    ensures SetCursor(SetCursor(w, a), b) == SetCursor(w, b)
    ensures SetCursor(SetCursorMode(c, w, m), a) == SetCursorMode(c, SetCursor(w, a), m)
    ensures GetCursorMode(c, SetCursor(w, a)) == GetCursorMode(c, w)
  {
  }
}
