/** `IWindow`: the window-creation bit flags, the creation parameters with
    their defaults, and the window-state and cursor-mode enums. */
module Window {
  import opened Common

  /** `WindowCreateFlags`, a `u32` bit set. */
  type CreateFlags = bv32

  const NONE: CreateFlags := 0x00
  const RESIZABLE: CreateFlags := 0x01
  const DECORATED: CreateFlags := 0x02
  const VISIBLE: CreateFlags := 0x04
  const FOCUSED: CreateFlags := 0x08
  const PASSTHROUGH: CreateFlags := 0x10
  const TOP_MOST: CreateFlags := 0x20
  const HIGH_DPI: CreateFlags := 0x40

  const DEFAULT: CreateFlags := RESIZABLE | DECORATED | VISIBLE | FOCUSED

  /** The seven named bits, in declaration order. */
  const CreateBits: seq<CreateFlags> := [RESIZABLE, DECORATED, VISIBLE, FOCUSED, PASSTHROUGH, TOP_MOST, HIGH_DPI]

  /** `x` has exactly one bit set. */
  predicate SingleBit(x: bv32) {
    x != 0 && x & (x - 1) == 0
  }

  /** The seven bits are single, pairwise disjoint bits 0x01..0x40; `NONE` is
      no bit; `DEFAULT` is 0x0F and excludes the last three. */
  lemma CreateBitsTable()
    ensures forall i :: 0 <= i < |CreateBits| ==> SingleBit(CreateBits[i])
    ensures forall i, j :: 0 <= i < j < |CreateBits| ==> CreateBits[i] & CreateBits[j] == 0
    ensures NONE == 0 && RESIZABLE == 0x01 && HIGH_DPI == 0x40
    ensures DEFAULT == 0x0F
    ensures DEFAULT & (PASSTHROUGH | TOP_MOST | HIGH_DPI) == 0
  {
  }

  /** `WindowState`. */
  datatype WindowState = Normal | Minimized | Maximized

  /** `CursorMode`: visible and free, hidden and free, or locked to the
      window (disabled). */
  datatype CursorMode = CursorNormal | CursorHidden | CursorLocked

  /** `WindowInfo`: the parameters a window is created from. */
  datatype WindowInfo = WindowInfo(width: Word32, height: Word32, title: string, initialState: WindowState, flags: CreateFlags)

  /** A default-initialised `WindowInfo`. */
  function DefaultWindowInfo(): (i: WindowInfo)
    ensures i.width == 0 && i.height == 0 && i.title == ""
    ensures i.initialState == Normal
    ensures i.flags & (RESIZABLE | DECORATED | VISIBLE | FOCUSED) == RESIZABLE | DECORATED | VISIBLE | FOCUSED
    ensures i.flags & (PASSTHROUGH | TOP_MOST | HIGH_DPI) == NONE
    ensures i.flags == DEFAULT
  {
    WindowInfo(0, 0, "", Normal, DEFAULT)
  }
}
