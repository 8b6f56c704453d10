# PyroPlatform input-event dispatch, in Dafny

This project models the per-window typed input-event system of PyroPlatform's
windowing layer, together with the small pure mappings around it.

- **Handlers and dispatchers.** A handler is an opaque callable plus an
  identity token (a GUID with a distinguished `Invalid` value). Equality,
  copy and move work on that token. A dispatcher is the ordered list of
  handlers for one event kind:
  - `Bind` refuses a token that is already bound;
  - `Unbind` removes the first match and keeps the rest in order;
  - `Dispatch` calls every handler once, in bind order, and never stops
    early when an event is marked handled.
- **The window registry (`WindowEvents`).** Ten dispatcher slots, one per
  `InputEventType`, addressed by the event's type tag. Binding, unbinding or
  dispatching on one slot leaves the other nine alone.
- **The event taxonomy.** The type-tag enum, the common event base (sender,
  handled flag) and the UTF-8 rendering of `CharInputEvent`. That rendering
  follows section 3 of RFC 3629 except that surrogates are not rejected.
  Also the string form of `WindowFocusEvent`, and the key, mouse-button and
  modifier value tables.
- **The GLFW backend glue.**
  - how each of the ten native callbacks turns its arguments into event
    fields, and which slot it feeds;
  - key and mouse-button polling;
  - logical key translation;
  - the window-creation hints;
  - the two parallel monitor lists kept by the window manager;
  - the cursor-mode and window-state mappings of a GLFW window, and the
    `IWindow` helpers built on them.

Modules follow the source files: `InputTypes` (Types.hpp), `InputEvent`,
`CharInputEvent`, `WindowFocusEvent`, `InputEventDispatcher`,
`WindowEvents`, `GlfwWindowInput`, `Window` (IWindow.hpp), `GlfwWindow` and
`GlfwWindowManager`. `Common` holds `Option` and the fixed-width integer
types.

Everything the backend owns is a parameter of the model:
- **Backend constants.** `GLFW_PRESS`/`RELEASE`/`REPEAT` and the three
  cursor-mode values are symbolic records. The model relies only on their
  values being distinct.
- **Backend queries.** The key name `glfwGetKeyName` returns, the cached
  key and button states, and the iconified/maximized attributes are
  parameters.
- **Fresh values.** Newly generated GUIDs and the addresses of newly
  allocated monitor objects are passed in. The caller guarantees they are
  fresh: a fresh GUID is valid and not bound, and a fresh address is not
  already in use.
- **Handlers.** A handler's effect on an event is a function
  `react(callable, event)` that returns the new handled flag. This is a
  generalisation: `bHandled` is protected and nothing in the source sets it
  (InputEvent.hpp:64-70), so there `WasHandled()` stays false after every
  dispatch. The source's behaviour is the `react` that always returns
  false.

Where the code asserts something of its callers, the model makes it a precondition:

- Passing a handler with an `Invalid` token to `Bind` or `Unbind` is an
  assertion failure in the code (InputEventDispatcher.hpp:93,101), so it is
  a precondition here. In a build without assertions `Unbind` simply finds
  no match; `InputEventDispatcher.MovedFromNeverMatches` proves that a
  moved-from token never matches a bound one.
- `Dispatch` asserts that every bound token is valid
  (InputEventDispatcher.hpp:88); that is its precondition. `Bind` keeps it
  true (`BindPreservesWellFormed`).
- A monitor's disconnection (GlfwWindowManager.cpp:274) writes
  `erase(remove(begin, end, p))`. That is the single-iterator `erase`, which
  deletes one element, at the position `remove` returns. It is not the
  two-iterator idiom that deletes every occurrence.
  - `EraseRemove` models the expression as written. EASTL's `remove` leaves
    the positions after the returned one holding their old values.
  - If `p` is absent, that position is `end()` and the call is undefined.
    So `Disconnect` requires the found object's address to be in the pointer
    list. `DisconnectPreservesParallel` shows this holds whenever the two
    lists are parallel.
  - When `p` occurs once, the expression erases exactly its index
    (`EraseRemoveSingle`). The manager keeps addresses distinct, so this is
    the only case that arises.
  - With repeated values the expression does not remove every occurrence.
    `EraseRemoveWithDuplicates` gives the instance `[a, x, x, b]` →
    `[a, b, b]`.

## Model

| member | source | states |
|---|---|---|
| InputTypes.DigitKeysAreAscii | src/PyroPlatform/Window/Input/Types.hpp:39-48 | `Key0`..`Key9` are ten contiguous codes equal to ASCII '0'..'9' |
| InputTypes.LetterKeysAreAscii | src/PyroPlatform/Window/Input/Types.hpp:53-78 | `KeyA`..`KeyZ` are 26 contiguous codes equal to ASCII 'A'..'Z' |
| InputTypes.PunctuationKeysAreAscii | src/PyroPlatform/Window/Input/Types.hpp:33-83 | each of the eleven punctuation keys equals the ASCII code of its character |
| InputTypes.KeyGroupsAreContiguous | src/PyroPlatform/Window/Input/Types.hpp:88-161 | navigation, lock, function, keypad and modifier keys are contiguous runs from `Escape`, `CapsLock`, `F1`, `Kp0` and `LeftShift` |
| InputTypes.FlattenWithin | src/PyroPlatform/Window/Input/Types.hpp:31-163 | a bound that holds for every row of the key table holds for the whole table |
| InputTypes.LastKeyIsLargest | src/PyroPlatform/Window/Input/Types.hpp:161-163 | `Last` = `Menu` = 348 and every named key lies between `Space` and `Last` |
| InputTypes.MouseButtonTable | src/PyroPlatform/Window/Input/Types.hpp:165-180 | buttons 1..8 are 0..7; Left/Right/Middle alias buttons 1/2/3; `Last` is button 8 = 7 |
| InputTypes.ModifierBitsAreDistinct | src/PyroPlatform/Window/Input/Types.hpp:182-191 | the six modifier flags are the single bits 2^0..2^5 in order, together 0x3F |
| InputEvent.Ordinal | src/PyroPlatform/Window/Input/InputEvent.hpp:32-45 | every event kind's enum value lies in 0..COUNT-1 |
| InputEvent.FromOrdinal | src/PyroPlatform/Window/Input/InputEvent.hpp:32-45 | an integer names an event kind exactly when it lies in 0..9 |
| InputEvent.OrdinalBijection | src/PyroPlatform/Window/Input/InputEvent.hpp:32-45 | enum numbering is a bijection between the ten kinds and 0..9; `Unknown` (-1) and `COUNT` name no kind |
| InputEvent.NewEvent | src/PyroPlatform/Window/Input/InputEvent.hpp:52-69 | a new event is not handled, reports the sender it was built with, and has its payload's type tag |
| InputEvent.Sender | src/PyroPlatform/Window/Input/InputEvent.hpp:60-62 | the window the event was built with; `NewEvent` and `EventOf` state what it returns |
| InputEvent.WasHandled | src/PyroPlatform/Window/Input/InputEvent.hpp:64-66 | the handled flag; false on every new event (`NewEvent`) and changed only through `WithHandled` |
| InputEvent.WithHandled | src/PyroPlatform/Window/Input/InputEvent.hpp:64-69 | a handler's change to the handled flag changes neither sender, payload nor type |
| InputEvent.NewEventInjective | src/PyroPlatform/Window/Input/InputEvent.hpp:52-53 | two new events are equal exactly when built from the same sender and payload |
| CharInputEvent.New | src/PyroPlatform/Window/Input/CharInputEvent.hpp:30-35 | the event stores the code point it was given, has type `CharInput`, and is not handled |
| CharInputEvent.GetTypeIsStaticType | src/PyroPlatform/Window/Input/CharInputEvent.hpp:28-35 | the runtime type of a char event equals the class's static type `CharInput` |
| CharInputEvent.GetName | src/PyroPlatform/Window/Input/CharInputEvent.hpp:36-38 | the class name "CharInputEvent" |
| CharInputEvent.Utf8Bytes | src/PyroPlatform/Window/Input/CharInputEvent.hpp:42-59 | the encoding is 1–4 bytes: ASCII as itself; 2, 3 and 4 bytes with lead patterns 110, 1110, 11110 and continuation bytes 10; above 0x10FFFF the single byte '?' |
| CharInputEvent.TwoByteBits | src/PyroPlatform/Window/Input/CharInputEvent.hpp:44-46 | a two-byte encoding has a two-byte lead and a continuation byte whose payload bits give back the code point |
| CharInputEvent.ThreeByteBits | src/PyroPlatform/Window/Input/CharInputEvent.hpp:47-50 | the same for three bytes |
| CharInputEvent.FourByteBits | src/PyroPlatform/Window/Input/CharInputEvent.hpp:51-55 | the same for four bytes |
| CharInputEvent.Utf8RoundTrip | src/PyroPlatform/Window/Input/CharInputEvent.hpp:42-55 | decoding the encoding of any code point up to 0x10FFFF gives back that code point |
| CharInputEvent.TwoByteCanonical | src/PyroPlatform/Window/Input/CharInputEvent.hpp:44-46 | re-encoding a decoded two-byte sequence reproduces its bytes |
| CharInputEvent.ThreeByteCanonical | src/PyroPlatform/Window/Input/CharInputEvent.hpp:47-50 | re-encoding a decoded three-byte sequence reproduces its bytes |
| CharInputEvent.FourByteCanonical | src/PyroPlatform/Window/Input/CharInputEvent.hpp:51-55 | re-encoding a decoded four-byte sequence reproduces its bytes |
| CharInputEvent.Utf8Canonical | src/PyroPlatform/Window/Input/CharInputEvent.hpp:42-55 | every byte string the decoder accepts is exactly the encoding of the code point it decodes to |
| CharInputEvent.SurrogatesAreEncoded | src/PyroPlatform/Window/Input/CharInputEvent.hpp:47-50 | surrogates 0xD800..0xDFFF are not rejected: they become three bytes starting 0xED and decode back |
| CharInputEvent.OutOfRangeIsLost | src/PyroPlatform/Window/Input/CharInputEvent.hpp:56-59 | a code point above 0x10FFFF renders as '?', which decodes to a different value |
| CharInputEvent.ByteChar | src/PyroPlatform/Window/Input/CharInputEvent.hpp:43 | a byte appended to the string is a character below 256 |
| CharInputEvent.ByteString | src/PyroPlatform/Window/Input/CharInputEvent.hpp:40-59 | appending bytes gives a string of the same length, one character per byte |
| CharInputEvent.ByteCharInjective | src/PyroPlatform/Window/Input/CharInputEvent.hpp:43 | distinct bytes give distinct characters |
| CharInputEvent.ByteStringInjective | src/PyroPlatform/Window/Input/CharInputEvent.hpp:40-59 | distinct byte strings give distinct strings |
| CharInputEvent.ToString | src/PyroPlatform/Window/Input/CharInputEvent.hpp:39-61 | the result is "Char Typed: " followed by 1–4 characters, all below 256 |
| CharInputEvent.ToStringRoundTrip | src/PyroPlatform/Window/Input/CharInputEvent.hpp:39-61 | for a code point up to 0x10FFFF, the bytes after the prefix decode back to the event's code point |
| CharInputEvent.ToStringExamples | src/PyroPlatform/Window/Input/CharInputEvent.hpp:42-61 | 'A' renders as "Char Typed: A", U+5BB6 as E5 AE B6, 0x110000 as "Char Typed: ?" |
| WindowFocusEvent.New | src/PyroPlatform/Window/Input/WindowFocusEvent.hpp:31-33 | the event stores the focus flag it was given, has type `WindowFocus`, and is not handled |
| WindowFocusEvent.FocusStrings | src/PyroPlatform/Window/Input/WindowFocusEvent.hpp:35-43 | type `WindowFocus` equals the static type, name "WindowFocusEvent", strings "Window Focussed" and "Window Unfocussed" |
| WindowFocusEvent.GetName | src/PyroPlatform/Window/Input/WindowFocusEvent.hpp:38-40 | the class name "WindowFocusEvent", as `FocusStrings` states |
| WindowFocusEvent.ToString | src/PyroPlatform/Window/Input/WindowFocusEvent.hpp:41-43 | "Window " then "Focussed" or "Unfocussed"; `FocusStrings` gives both strings and `ToStringInjective` shows they differ |
| WindowFocusEvent.ToStringInjective | src/PyroPlatform/Window/Input/WindowFocusEvent.hpp:41-43 | the string form tells focused and unfocused events apart |
| InputEventDispatcher.DefaultHandler | src/PyroPlatform/Window/Input/InputEventDispatcher.hpp:75-78 | a default handler has the `Invalid` token and an empty callable |
| InputEventDispatcher.NewHandler | src/PyroPlatform/Window/Input/InputEventDispatcher.hpp:43 | a handler built from a callable carries a freshly generated, valid token |
| InputEventDispatcher.Same | src/PyroPlatform/Window/Input/InputEventDispatcher.hpp:67-69 | handler equality compares tokens only; `SameIgnoresCallable` shows it ignores the callables and is reflexive |
| InputEventDispatcher.SameIgnoresCallable | src/PyroPlatform/Window/Input/InputEventDispatcher.hpp:67-69 | two handlers are equal iff their tokens are equal, whatever their callables |
| InputEventDispatcher.CopyConstruct | src/PyroPlatform/Window/Input/InputEventDispatcher.hpp:45 | a copy has the source's token and callable; the source is unchanged |
| InputEventDispatcher.CopyAssign | src/PyroPlatform/Window/Input/InputEventDispatcher.hpp:46-52 | the destination ends up equal to the source; if they were already equal it is untouched; the source never changes |
| InputEventDispatcher.MoveConstruct | src/PyroPlatform/Window/Input/InputEventDispatcher.hpp:53-56 | the destination takes token and callable; the source is left with `Invalid` and an empty callable |
| InputEventDispatcher.MoveAssign | src/PyroPlatform/Window/Input/InputEventDispatcher.hpp:57-65 | between equal handlers nothing changes; otherwise the destination takes over and the source is invalidated |
| InputEventDispatcher.MoveAssignFromCopyIsNoOp | src/PyroPlatform/Window/Input/InputEventDispatcher.hpp:57-59 | move-assigning a handler from its own copy leaves both valid and unchanged |
| InputEventDispatcher.NewDispatcher | src/PyroPlatform/Window/Input/InputEventDispatcher.hpp:84 | a new dispatcher is empty and satisfies the token invariant |
| InputEventDispatcher.FindFrom | src/PyroPlatform/Window/Input/InputEventDispatcher.hpp:102-107 | the search from an index finds the first position at or after it holding the token, or reports that there is none |
| InputEventDispatcher.Find | src/PyroPlatform/Window/Input/InputEventDispatcher.hpp:94 | `find`: the first position holding the token, or none exactly when the token is absent |
| InputEventDispatcher.Bind | src/PyroPlatform/Window/Input/InputEventDispatcher.hpp:92-99 | succeeds iff the token is not yet bound; on success the handler is appended at the end, otherwise nothing changes |
| InputEventDispatcher.Unbind | src/PyroPlatform/Window/Input/InputEventDispatcher.hpp:100-109 | succeeds iff the token is bound; on success exactly the first matching handler is removed and the rest keep their order, otherwise nothing changes |
| InputEventDispatcher.BindPreservesWellFormed | src/PyroPlatform/Window/Input/InputEventDispatcher.hpp:92-99 | binding keeps every bound token valid and all tokens pairwise distinct |
| InputEventDispatcher.RemoveAtPreserves | src/PyroPlatform/Window/Input/InputEventDispatcher.hpp:104 | erasing one handler keeps the invariant and removes its token altogether |
| InputEventDispatcher.UnbindPreservesWellFormed | src/PyroPlatform/Window/Input/InputEventDispatcher.hpp:100-109 | unbinding keeps the invariant, and afterwards the token is no longer bound |
| InputEventDispatcher.BindUnbindRoundTrip | tests/TestWindowInput.cpp:93-109 | binding a new handler and then unbinding it restores the original dispatcher and succeeds both times |
| InputEventDispatcher.BoundOnce | src/PyroPlatform/Window/Input/InputEventDispatcher.hpp:92-99 | after `Bind`, however often it was called, the token occurs exactly once |
| InputEventDispatcher.DistinctCountsOnce | src/PyroPlatform/Window/Input/InputEventDispatcher.hpp:92-99 | under the invariant every bound token occurs exactly once in the list |
| InputEventDispatcher.MovedFromNeverMatches | src/PyroPlatform/Window/Input/InputEventDispatcher.hpp:53-56 | a moved-from handle's token matches no bound handler, so it cannot unbind anything |
| InputEventDispatcher.Deliver | src/PyroPlatform/Window/Input/InputEventDispatcher.hpp:86-91 | passing an event through the handlers in order keeps its sender and payload |
| InputEventDispatcher.Dispatch | src/PyroPlatform/Window/Input/InputEventDispatcher.hpp:86-91 | every bound handler is invoked exactly once, in bind order, with no early stop on handled; the event keeps sender, payload and type |
| InputEventDispatcher.BindThree | tests/TestWindowInput.cpp:154-156 | binding three distinct handlers lists them in bind order |
| InputEventDispatcher.UnbindSecond | tests/TestWindowInput.cpp:158 | unbinding the middle of three leaves the first and third in order |
| InputEventDispatcher.UnbindMiddleOfThree | tests/TestWindowInput.cpp:137-165 | bind 1, 2, 3 then unbind 2: dispatch invokes 1 then 3 |
| WindowEvents.KindAt | src/PyroPlatform/Window/WindowEvents.hpp:46-58 | slot i holds the dispatcher of the kind whose enum value is i |
| WindowEvents.NewEventMap | src/PyroPlatform/Window/WindowEvents.hpp:88-99 | a new registry has exactly ten slots in enum order, all empty and well-formed |
| WindowEvents.GetEventDispatcher | src/PyroPlatform/Window/WindowEvents.hpp:79-82 | the lookup by type tag never fails and returns a dispatcher of that kind |
| WindowEvents.Replace | src/PyroPlatform/Window/WindowEvents.hpp:80-82 | writing one kind's dispatcher leaves the other nine unchanged and keeps the registry's shape |
| WindowEvents.BindEvent | src/PyroPlatform/Window/WindowEvents.hpp:63-66 | returns exactly what `Bind` returns on that kind's dispatcher, stores its result, and touches no other kind |
| WindowEvents.UnbindEvent | src/PyroPlatform/Window/WindowEvents.hpp:74-77 | returns exactly what `Unbind` returns on that kind's dispatcher, stores its result, and touches no other kind |
| WindowEvents.BindEventFn | src/PyroPlatform/Window/WindowEvents.hpp:67-72 | wraps the callable in a handler with the fresh token, appends it to that kind's slot only, and returns it |
| WindowEvents.BindEventFnThenUnbind | src/PyroPlatform/Window/WindowEvents.hpp:67-77 | unbinding the handle `BindEvent(fn)` returned succeeds and restores the registry exactly |
| WindowEvents.SameDispatchersSameMap | src/PyroPlatform/Window/WindowEvents.hpp:46-58 | a registry is determined by its ten dispatchers |
| WindowEvents.BindUnbindPreserveWellFormedMap | src/PyroPlatform/Window/WindowEvents.hpp:63-77 | binding and unbinding keep every slot's token invariant |
| WindowEvents.DispatchEvent | src/PyroPlatform/Window/WindowEvents.hpp:79-82 | an event reaches exactly the handlers of its own kind, in order; sender and payload are kept |
| GlfwWindowInput.ModsOf | src/PyroPlatform/Window/Platforms/Glfw/GlfwWindowInput.cpp:65 | the signed modifier word is reinterpreted as `u32`: non-negative values unchanged, negative ones in the upper half |
| GlfwWindowInput.ModsRoundTrip | src/PyroPlatform/Window/Platforms/Glfw/GlfwWindowInput.cpp:65 | the modifier cast loses no information |
| GlfwWindowInput.EventOf | src/PyroPlatform/Window/Platforms/Glfw/GlfwWindowInput.cpp:63-127 | each callback builds an unhandled event whose sender is the originating window |
| GlfwWindowInput.Route | src/PyroPlatform/Window/Platforms/Glfw/GlfwWindowInput.cpp:63-127 | the slot each callback's `GetEventDispatcher<E>` fetches; `RouteMatchesEventType` shows it is the type of the event the callback builds |
| GlfwWindowInput.RouteMatchesEventType | src/PyroPlatform/Window/Platforms/Glfw/GlfwWindowInput.cpp:63-127 | every callback builds an event of exactly the kind whose slot it dispatches to |
| GlfwWindowInput.EverySlotHasACallback | src/PyroPlatform/Window/Platforms/Glfw/GlfwWindowInput.cpp:50-61 | each of the ten slots is fed by some native callback |
| GlfwWindowInput.KeyFieldMapping | src/PyroPlatform/Window/Platforms/Glfw/GlfwWindowInput.cpp:63-69 | key, scan code and modifiers are carried over; down iff press or repeat; repeating iff repeat; repeating implies down; release gives neither |
| GlfwWindowInput.MouseFieldMapping | src/PyroPlatform/Window/Platforms/Glfw/GlfwWindowInput.cpp:76-82 | button and modifiers are carried over; pressed iff the action is press |
| GlfwWindowInput.FlagAndPassThroughMapping | src/PyroPlatform/Window/Platforms/Glfw/GlfwWindowInput.cpp:70-127 | enter and focus flags are true iff non-zero; code point, size and position pass through unchanged |
| GlfwWindowInput.OnCallback | src/PyroPlatform/Window/Platforms/Glfw/GlfwWindowInput.cpp:63-127 | a callback invokes exactly the handlers of its own slot in the originating window's registry, with the mapped event |
| GlfwWindowInput.KeyPollAgreesWithEvent | src/PyroPlatform/Window/Platforms/Glfw/GlfwWindowInput.cpp:40-42 | `IsKeyDown` (the backend state is press) agrees with the `down` flag of the last key event for that key |
| GlfwWindowInput.MousePollAgreesWithEvent | src/PyroPlatform/Window/Platforms/Glfw/GlfwWindowInput.cpp:44-46 | `IsMouseDown` (the backend state is press) agrees with the `pressed` flag of the last button event for that button |
| Window.CreateBitsTable | src/PyroPlatform/Window/IWindow.hpp:51-61 | the seven create bits are distinct single bits 0x01..0x40, `NONE` is 0, `DEFAULT` is 0x0F and excludes passthrough, top-most and high-DPI |
| Window.DefaultWindowInfo | src/PyroPlatform/Window/IWindow.hpp:64-70 | defaults are zero size, empty title, state `Normal`, and flags exactly `DEFAULT`: the four default bits set and the other three defined bits clear |
| GlfwWindow.SetCursorMode | src/PyroPlatform/Window/Platforms/Glfw/GlfwWindow.cpp:215-229 | the backend mode becomes one of the three cursor values and nothing else changes |
| GlfwWindow.GetCursorMode | src/PyroPlatform/Window/Platforms/Glfw/GlfwWindow.cpp:189-201 | an unknown backend value reads as `Normal` |
| GlfwWindow.CursorModeRoundTrip | src/PyroPlatform/Window/Platforms/Glfw/GlfwWindow.cpp:189-229 | reading the mode back after setting it gives the mode that was set |
| GlfwWindow.GetCursorModeInverse | src/PyroPlatform/Window/Platforms/Glfw/GlfwWindow.cpp:189-201 | a mode is read iff the backend holds its value, or, for `Normal` only, an unknown value |
| GlfwWindow.SetCursorVisible | src/PyroPlatform/Window/Platforms/Glfw/GlfwWindow.cpp:108-110 | only the cursor mode changes |
| GlfwWindow.SetCursorLockedToWindow | src/PyroPlatform/Window/Platforms/Glfw/GlfwWindow.cpp:112-114 | only the cursor mode changes |
| GlfwWindow.CursorSettersAgree | src/PyroPlatform/Window/Platforms/Glfw/GlfwWindow.cpp:108-114 | visible selects normal and hidden selects hidden; locked selects disabled and unlocked selects normal; each reads back as that mode |
| GlfwWindow.SetWindowState | src/PyroPlatform/Window/Platforms/Glfw/GlfwWindow.cpp:138-150 | changing the window state leaves cursor mode, should-close flag and cursor alone |
| GlfwWindow.GetWindowState | src/PyroPlatform/Window/Platforms/Glfw/GlfwWindow.cpp:152-158 | minimized iff iconified; maximized iff maximized and not iconified; normal iff neither |
| GlfwWindow.WindowStateRoundTrip | src/PyroPlatform/Window/Platforms/Glfw/GlfwWindow.cpp:138-158 | reading the state back after setting it gives the state that was set |
| GlfwWindow.Minimize | src/PyroPlatform/Window/IWindow.hpp:95 | the window then reads back as minimized, with cursor and close state untouched |
| GlfwWindow.Maximize | src/PyroPlatform/Window/IWindow.hpp:96 | the window then reads back as maximized, even from minimized, with cursor and close state untouched |
| GlfwWindow.Restore | src/PyroPlatform/Window/IWindow.hpp:97 | the window then reads back as normal, with cursor and close state untouched |
| GlfwWindow.IsMinimized | src/PyroPlatform/Window/IWindow.hpp:99 | true exactly when the backend reports the window iconified |
| GlfwWindow.IsMaximized | src/PyroPlatform/Window/IWindow.hpp:100 | true exactly when the backend reports the window maximized and not iconified |
| GlfwWindow.StateHelpers | src/PyroPlatform/Window/IWindow.hpp:95-100 | `Minimize`, `Maximize` and `Restore` give minimized, maximized and neither; no window is both minimized and maximized |
| GlfwWindow.Close | src/PyroPlatform/Window/Platforms/Glfw/GlfwWindow.cpp:251-253 | the should-close flag is set and nothing else changes |
| GlfwWindow.CancelClose | src/PyroPlatform/Window/Platforms/Glfw/GlfwWindow.cpp:255-257 | the should-close flag is cleared and nothing else changes |
| GlfwWindow.CloseCancelClose | src/PyroPlatform/Window/Platforms/Glfw/GlfwWindow.cpp:251-257 | cancel undoes close on an unmarked window, close undoes cancel on a marked one, and both are idempotent |
| GlfwWindow.ShouldClose | src/PyroPlatform/Window/Platforms/Glfw/GlfwWindow.cpp:279-281 | the should-close mark, which `Close` sets and `CancelClose` clears (see their contracts and `CloseCancelClose`) |
| GlfwWindow.SetCursor | src/PyroPlatform/Window/Platforms/Glfw/GlfwWindow.cpp:120-127 | a null cursor selects the default image, a non-null one its own image; nothing else changes |
| GlfwWindow.SetCursorLastWins | src/PyroPlatform/Window/Platforms/Glfw/GlfwWindow.cpp:120-127 | the last cursor set is in effect, and cursor image and cursor mode are set independently |
| GlfwWindowManager.Init | src/PyroPlatform/Window/Platforms/Glfw/GlfwWindowManager.cpp:38-72 | returns and records whether the backend started; on success both lists hold one entry per connected monitor, in order and parallel; on failure both are empty |
| GlfwWindowManager.Terminate | src/PyroPlatform/Window/Platforms/Glfw/GlfwWindowManager.cpp:74-81 | both lists are cleared, the manager is no longer initialised, and the result is true |
| GlfwWindowManager.Addresses | src/PyroPlatform/Window/Platforms/Glfw/GlfwWindowManager.cpp:62-63 | the raw pointer of the i-th owned object is its address |
| GlfwWindowManager.Connect | src/PyroPlatform/Window/Platforms/Glfw/GlfwWindowManager.cpp:257-263 | a new object wrapping the monitor is appended to the owning list and its address to the pointer list |
| GlfwWindowManager.ConnectPreservesParallel | src/PyroPlatform/Window/Platforms/Glfw/GlfwWindowManager.cpp:261-262 | after a connect, the i-th raw pointer is still the i-th owned object's address at every index |
| GlfwWindowManager.FindNative | src/PyroPlatform/Window/Platforms/Glfw/GlfwWindowManager.cpp:269-270 | finds the first owned object wrapping the monitor, or reports that none does |
| GlfwWindowManager.Kept | src/PyroPlatform/Window/Platforms/Glfw/GlfwWindowManager.cpp:274 | the values `remove` moves to the front: none equal to the pointer, every other value kept, strictly shorter when the pointer occurs |
| GlfwWindowManager.Remove | src/PyroPlatform/Window/Platforms/Glfw/GlfwWindowManager.cpp:274 | `remove` keeps the list's length: the kept values, then the old values at the remaining positions |
| GlfwWindowManager.EraseRemove | src/PyroPlatform/Window/Platforms/Glfw/GlfwWindowManager.cpp:274 | the single-iterator `erase` of `remove`'s result deletes exactly one element, and is defined only when the pointer occurs |
| GlfwWindowManager.KeptDistinct | src/PyroPlatform/Window/Platforms/Glfw/GlfwWindowManager.cpp:274 | in a list without duplicates, the values `remove` keeps for the i-th element are the list without index i |
| GlfwWindowManager.EraseRemoveSingle | src/PyroPlatform/Window/Platforms/Glfw/GlfwWindowManager.cpp:274 | when the pointer occurs once, the expression erases exactly its index |
| GlfwWindowManager.EraseRemoveWithDuplicates | src/PyroPlatform/Window/Platforms/Glfw/GlfwWindowManager.cpp:274 | with a repeated pointer the expression is not "remove all": `[a, x, x, b]` becomes `[a, b, b]` |
| GlfwWindowManager.Disconnect | src/PyroPlatform/Window/Platforms/Glfw/GlfwWindowManager.cpp:265-278 | for a monitor that no object wraps, nothing changes; otherwise the first matching object is erased from the owning list and line 274's expression is applied to the pointer list, which must hold the object's address for that to be defined |
| GlfwWindowManager.AddressesRemoveAt | src/PyroPlatform/Window/Platforms/Glfw/GlfwWindowManager.cpp:274-276 | erasing an owned object erases its address at the same index |
| GlfwWindowManager.EraseKeepsDistinct | src/PyroPlatform/Window/Platforms/Glfw/GlfwWindowManager.cpp:274-276 | erasing from a list without duplicates keeps it free of duplicates and free of the erased element |
| GlfwWindowManager.DisconnectPreservesParallel | src/PyroPlatform/Window/Platforms/Glfw/GlfwWindowManager.cpp:269-276 | on parallel lists the found address is in the pointer list, and after a disconnect the lists stay parallel: the same index leaves both, and the address is gone |
| GlfwWindowManager.ConnectThenDisconnect | src/PyroPlatform/Window/Platforms/Glfw/GlfwWindowManager.cpp:257-278 | connecting a new monitor and then disconnecting it restores both lists |
| Common.SignedOf | src/PyroPlatform/Window/Platforms/Glfw/GlfwWindow.cpp:54-55 | a `u32` passed as a C `int` is congruent to it modulo 2^32 and negative exactly when its top bit is set |
| Common.CString | src/PyroPlatform/Window/Platforms/Glfw/GlfwWindowManager.cpp:138 | `c_str()` text: a NUL-free prefix of the string that ends at its first NUL, and the whole string when there is none |
| Common.CStringIsLongestPrefix | src/PyroPlatform/Window/Platforms/Glfw/GlfwWindowManager.cpp:138 | every NUL-free prefix of the string is a prefix of its C-string text |
| GlfwWindowManager.CreateWindow | src/PyroPlatform/Window/Platforms/Glfw/GlfwWindowManager.cpp:126-139 | each hint is on iff its flag bit is set; `FOCUSED` drives both focused and focus-on-show; the title reaches the backend as a C string, cut at its first NUL, and each `u32` dimension reaches the backend as a signed `int`, unchanged below 2^31 and negative from 2^31 up |
| GlfwWindowManager.CreateWindowCutsTitle | src/PyroPlatform/Window/Platforms/Glfw/GlfwWindowManager.cpp:138 | the title "ab\0c" reaches the backend as "ab" |
| GlfwWindowManager.HintsAreTheDefinedBits | src/PyroPlatform/Window/Platforms/Glfw/GlfwWindowManager.cpp:128-135 | two flag words give the same hints iff they agree on the seven defined bits 0x7F |
| GlfwWindowManager.BitsOfMasked | src/PyroPlatform/Window/Platforms/Glfw/GlfwWindowManager.cpp:128-135 | masking with 0x7F keeps each defined bit |
| GlfwWindowManager.SevenBitsDetermine | src/PyroPlatform/Window/IWindow.hpp:51-58 | a word within 0x7F is fixed by its seven defined bits |
| GlfwWindowManager.DefaultHints | src/PyroPlatform/Window/Platforms/Glfw/GlfwWindowManager.cpp:128-135 | the default flags request a resizable, visible, focused, decorated window that is not floating, pass-through or scaled |
| GlfwWindowManager.FirstChar | src/PyroPlatform/Window/Platforms/Glfw/GlfwWindowManager.cpp:211-212 | a first character exists only for a non-null name that is not empty as a C string |
| GlfwWindowManager.TranslateKey | src/PyroPlatform/Window/Platforms/Glfw/GlfwWindowManager.cpp:200-251 | physical keys and keys without a name come back unchanged; otherwise the name's first character is translated |
| GlfwWindowManager.TranslateChar | src/PyroPlatform/Window/Platforms/Glfw/GlfwWindowManager.cpp:214-245 | digits and letters of either case map to their key codes and the eleven punctuation characters to theirs, everything else to the fallback; `TranslateCharIsAscii` and `TranslateCharAgreesWithTables` pin it |
| GlfwWindowManager.TranslateCharIsAscii | src/PyroPlatform/Window/Platforms/Glfw/GlfwWindowManager.cpp:211-250 | a digit, letter or one of the eleven symbols gives the ASCII code of its upper-case form; any other character falls back to the key |
| GlfwWindowManager.TranslateCharAgreesWithTables | src/PyroPlatform/Window/Platforms/Glfw/GlfwWindowManager.cpp:214-247 | digit d gives `Key0`+d, both cases of a letter give its letter key, each symbol gives its named key |
| GlfwWindowManager.TranslateKeyIgnoresCase | src/PyroPlatform/Window/Platforms/Glfw/GlfwWindowManager.cpp:218-221 | a name starting with a lower-case letter translates like the one starting with the upper-case letter |

## Left out

- Floating-point payloads: scroll, cursor and window positions are carried as reals. The `double`→`float` casts of the scroll and cursor callbacks are not modelled, nor the `%.2lf` formatting of the cursor-position event.
- Opacity, DPI scale and content scale are not modelled: they are floating-point getters.
- Size, position, title, fullscreen, visibility, focus, pass-through, top-most and attention calls of `GlfwWindow` are not modelled: each is a single backend call with nothing to state.
- Sticky keys, sticky mouse buttons and raw mouse motion are not modelled, for the same reason.
- Native handles, clipboard, polling and cursor creation of the window manager are left out: they are backend calls.
- `DestroyWindow` and `DestroyCursor` are left out: they only free memory.
- The callables: a handler's effect is the parameter `react`, and `Dispatch` returns the tokens it invoked in order. Callable equality and emptiness beyond the `Empty` tag are not modelled.
- Binding or unbinding from inside a handler during `Dispatch` is not modelled. `Dispatch` walks the list as it was on entry, and handlers cannot reach the dispatcher.
- GUID generation is not part of this model: fresh tokens are parameters that are valid and not bound.
- Object lifetime, the user-pointer trampolines and teardown order are memory-safety concerns with no observable result here. A callback requires its window to be live.
- The monitor callback wiring is left out. The native monitor callback (GlfwWindowManager.cpp:49-55) sends disconnections to the connect handler, and the monitor user pointer is never set in that file. `Connect` and `Disconnect` model the two handlers as standalone operations.
- The monitor getters (`GetMonitors`, `GetPrimaryMonitor`) and the monitor objects' own queries are not modelled: they read the backend.
- Logging is not modelled.
- The file systems, library loader, clock and factory are not part of this model.
- GlfwWindow.SetWindowState: the effect on the backend's iconified and maximized attributes is an assumption, not code. Iconify sets iconified; maximize sets maximized and clears iconified; restore clears both. `Minimize`, `Maximize` and `Restore` rest on the same assumption.
- GlfwWindowInput.KeyPollAgreesWithEvent: stated against a backend whose cached key state after a repeat is press, with sticky keys off. Both are assumptions about the backend. With sticky keys on, the backend reports press once more after a release.
- GlfwWindowInput.MousePollAgreesWithEvent: stated with sticky mouse buttons off, for the same reason.
- GlfwWindowInput.ModsOf: modifier flags are kept as unsigned integers below 2^32 rather than bit vectors. The six modifier bits are therefore stated as powers of two.
