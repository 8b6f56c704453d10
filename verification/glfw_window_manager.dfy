/** `GlfwWindowManager`: backend start-up and shut-down with the two parallel
    monitor lists, the window-creation hints, and the logical key
    translation. */
module GlfwWindowManager {
  import opened Common
  import opened InputTypes
  import opened Window

  /** `KeySource`: layout-independent or layout-dependent key codes. */
  datatype KeySource = Physical | Logical

  // ---------------------------------------------------------------------
  // Monitor lists

  /** A `GlfwMonitor` held by the owning list: the object's address (the
      `IMonitor*` handed out) and the backend monitor it wraps. */
  datatype MonitorObject = MonitorObject(addr: nat, native: nat)

  /** The manager's state: the initialised flag, the owning list
      `mMonitorsStorage` and the parallel list of raw pointers `mMonitors`. */
  datatype Manager = Manager(initialised: bool, storage: seq<MonitorObject>, monitors: seq<nat>)

  /** A manager before `Init`. */
  const Uninitialised: Manager := Manager(false, [], [])

  /** The addresses of the owned objects, in list order. */
  function Addresses(storage: seq<MonitorObject>): (a: seq<nat>)
    ensures |a| == |storage|
    ensures forall i :: 0 <= i < |a| ==> a[i] == storage[i].addr
  {
    if |storage| == 0 then [] else [storage[0].addr] + Addresses(storage[1..])
  }

  /** The elements of `s` are pairwise distinct. */
  ghost predicate Distinct(s: seq<nat>) {
    forall i, j :: 0 <= i < j < |s| ==> s[i] != s[j]
  }

  /** `mMonitors[i]` is `mMonitorsStorage[i].get()` at every index, and
      distinct owned objects live at distinct addresses. */
  ghost predicate Parallel(m: Manager) {
    m.monitors == Addresses(m.storage) && Distinct(m.monitors)
  }

  /** The result of `Init` and `Terminate`: the new state and the return value. */
  datatype Status = Status(manager: Manager, ok: bool)

  /** `Init()`: clears both lists; if the backend starts (`backendOk`),
      wraps each connected backend monitor in a new object (at the fresh
      address `addrs[i]`) and appends it to both lists together. */
  method Init(m: Manager, backendOk: bool, natives: seq<nat>, addrs: seq<nat>) returns (r: Status)
    requires |addrs| == |natives| && Distinct(addrs)
    ensures r.ok == backendOk && r.manager.initialised == backendOk
    ensures Parallel(r.manager)
    ensures backendOk ==> r.manager.monitors == addrs
    ensures backendOk ==> |r.manager.storage| == |natives|
                          && forall i :: 0 <= i < |natives| ==> r.manager.storage[i].native == natives[i]
    ensures !backendOk ==> r.manager.storage == [] && r.manager.monitors == []
  {
    var storage: seq<MonitorObject> := [];
    var monitors: seq<nat> := [];
    if backendOk {
      var i := 0;
      while i < |natives|
        invariant 0 <= i <= |natives|
        invariant |storage| == i
        invariant forall k :: 0 <= k < i ==> storage[k] == MonitorObject(addrs[k], natives[k])
        invariant monitors == Addresses(storage)
        invariant monitors == addrs[..i]
      {
        storage := storage + [MonitorObject(addrs[i], natives[i])];
        monitors := monitors + [storage[|storage| - 1].addr];
        i := i + 1;
      }
      assert addrs[..i] == addrs;
    }
    r := Status(Manager(backendOk, storage, monitors), backendOk);
  }

  /** `Terminate()`: both lists cleared, not initialised, returns true. */
  function Terminate(m: Manager): (r: Status)
    ensures r.ok && !r.manager.initialised
    ensures r.manager.storage == [] && r.manager.monitors == []
    ensures Parallel(r.manager)
  {
    Status(Uninitialised, true)
  }

  /** `MonitorConnectedCallback`: wraps `native` in a new object at the fresh
      address `addr` and appends it to both lists. */
  function Connect(m: Manager, native: nat, addr: nat): (m': Manager)
    requires addr !in Addresses(m.storage)
    ensures m'.storage == m.storage + [MonitorObject(addr, native)]
    ensures m'.monitors == m.monitors + [addr]
    ensures Addresses(m'.storage) == Addresses(m.storage) + [addr]
    ensures m'.initialised == m.initialised
  {
    Manager(m.initialised, m.storage + [MonitorObject(addr, native)], m.monitors + [addr])
  }

  /** Connecting keeps the two lists parallel. */
  lemma ConnectPreservesParallel(m: Manager, native: nat, addr: nat)
    requires Parallel(m) && addr !in Addresses(m.storage)
    ensures Parallel(Connect(m, native, addr))
  {
  }

  /** The first owned object wrapping `native` (`find_if`). */
  function FindNative(storage: seq<MonitorObject>, native: nat): (r: Option<nat>)
    ensures r.Some? ==> r.value < |storage| && storage[r.value].native == native
    ensures r.Some? ==> forall j :: 0 <= j < r.value ==> storage[j].native != native
    ensures r.None? ==> forall j :: 0 <= j < |storage| ==> storage[j].native != native
  {
    if |storage| == 0 then None
    else if storage[0].native == native then Some(0)
    else match FindNative(storage[1..], native)
      case None => None
      case Some(i) => Some(i + 1)
  }

  /** The values of `s` other than `x`, in order: what `remove(begin, end, x)`
      moves to the front of the list. */
  function Kept(s: seq<nat>, x: nat): (r: seq<nat>)
    ensures |r| <= |s| && (x in s ==> |r| < |s|)
    ensures x !in r
    ensures forall y :: y in s && y != x ==> y in r
    ensures forall y :: y in r ==> y in s
  {
    if |s| == 0 then []
    else if s[0] == x then Kept(s[1..], x)
    else [s[0]] + Kept(s[1..], x)
  }

  /** `eastl::remove(begin, end, x)`: the kept values are copied to the
      front and the positions after them keep their old values (EASTL
      writes only below the position it returns); the length is unchanged. */
  function Remove(s: seq<nat>, x: nat): (t: seq<nat>)
    ensures |t| == |s|
  {
    Kept(s, x) + s[|Kept(s, x)|..]
  }

  /** `erase(remove(begin, end, x))` as line 274 writes it: the
      single-iterator `erase` deletes only the element at the position
      `remove` returns. That position is `end()`, and the call undefined,
      unless `x` occurs in `s`. */
  function EraseRemove(s: seq<nat>, x: nat): (r: seq<nat>)
    requires x in s
    ensures |r| == |s| - 1
  {
    var k := |Kept(s, x)|;
    var t := Remove(s, x);
    t[..k] + t[k + 1..]
  }

  /** In a list without duplicates, the kept values of `s[i]` are the list
      with index `i` erased. */
  lemma {:induction false} KeptDistinct(s: seq<nat>, i: nat)
    requires Distinct(s) && i < |s|
    ensures Kept(s, s[i]) == s[..i] + s[i + 1..]
  {
    if i == 0 {
      KeptAbsent(s[1..], s[0]);
      assert s[1..] == s[i + 1..];
    } else {
      KeptDistinct(s[1..], i - 1);
      assert s[1..][i - 1] == s[i];
      assert s[1..][..i - 1] == s[1..i];
      assert s[1..][i..] == s[i + 1..];
      assert [s[0]] + s[1..i] == s[..i];
    }
  }

  /** Filtering out an absent value keeps the whole list. */
  lemma {:induction false} KeptAbsent(s: seq<nat>, x: nat)
    requires x !in s
    ensures Kept(s, x) == s
  {
    if |s| > 0 {
      assert s[0] != x && x !in s[1..];
      KeptAbsent(s[1..], x);
      assert [s[0]] + s[1..] == s;
    }
  }

  /** When `s[i]` occurs once, line 274 erases exactly index `i`: `remove`
      returns the last position, and the single `erase` drops it. */
  lemma EraseRemoveSingle(s: seq<nat>, i: nat)
    requires Distinct(s) && i < |s|
    ensures EraseRemove(s, s[i]) == s[..i] + s[i + 1..]
  {
    KeptDistinct(s, i);
    var k := |Kept(s, s[i])|;
    assert k == |s| - 1;
    var t := Remove(s, s[i]);
    assert t[..k] == Kept(s, s[i]);
    assert t[k + 1..] == [];
  }

  /** With a repeated value, line 274 is not "remove every occurrence": of
      `[a, x, x, b]` it keeps `[a, b, b]`, dropping `x` but also leaving a
      stale second copy of `b`. */
  lemma EraseRemoveWithDuplicates(a: nat, x: nat, b: nat)
    requires a != x && b != x
    ensures EraseRemove([a, x, x, b], x) == [a, b, b]
  {
    var s := [a, x, x, b];
    assert Kept(s, x) == [a, b] by {
      assert [b][1..] == [] && Kept([b], x) == [b];
      assert [x, b][1..] == [b] && Kept([x, b], x) == [b];
      assert [x, x, b][1..] == [x, b] && Kept([x, x, b], x) == [b];
      assert s[1..] == [x, x, b];
    }
    assert Remove(s, x) == [a, b, x, b];
  }

  /** `MonitorDisconnectedCallback`: the first owned object wrapping
      `native` is found; line 274 takes its address out of the pointer list
      and the object is erased from the owning list. If none wraps
      `native`, nothing changes. The source relies on the found object's
      address being in the pointer list (otherwise line 274 erases
      `end()`). */
  function Disconnect(m: Manager, native: nat): (m': Manager)
    requires FindNative(m.storage, native).Some? ==>
             m.storage[FindNative(m.storage, native).value].addr in m.monitors
    ensures FindNative(m.storage, native).None? ==> m' == m
    ensures m'.initialised == m.initialised
    ensures FindNative(m.storage, native).Some? ==>
            var i := FindNative(m.storage, native).value;
            m'.storage == m.storage[..i] + m.storage[i + 1..]
            && m'.monitors == EraseRemove(m.monitors, m.storage[i].addr)
  {
    match FindNative(m.storage, native)
    case None => m
    case Some(i) =>
      Manager(m.initialised, m.storage[..i] + m.storage[i + 1..], EraseRemove(m.monitors, m.storage[i].addr))
  }

  /** Erasing index `i` from the owning list erases index `i` from its
      addresses. */
  lemma AddressesRemoveAt(storage: seq<MonitorObject>, i: nat)
    requires i < |storage|
    ensures Addresses(storage[..i] + storage[i + 1..]) == Addresses(storage)[..i] + Addresses(storage)[i + 1..]
  {
  }

  /** On parallel lists the found object's address is in the pointer list,
      and disconnecting keeps the lists parallel: the same index goes from
      both, and the object's address leaves the pointer list. */
  lemma DisconnectPreservesParallel(m: Manager, native: nat)
    requires Parallel(m)
    ensures FindNative(m.storage, native).Some? ==>
            m.storage[FindNative(m.storage, native).value].addr in m.monitors
    ensures Parallel(Disconnect(m, native))
    ensures FindNative(m.storage, native).Some? ==>
            var i := FindNative(m.storage, native).value;
            Disconnect(m, native).monitors == m.monitors[..i] + m.monitors[i + 1..]
            && m.storage[i].addr !in Disconnect(m, native).monitors
  {
    match FindNative(m.storage, native)
    case None =>
    case Some(i) =>
      assert m.monitors[i] == m.storage[i].addr;
      EraseRemoveSingle(m.monitors, i);
      AddressesRemoveAt(m.storage, i);
      EraseKeepsDistinct(m.monitors, i);
  }

  /** Erasing index `i` from a list without duplicates leaves one without
      duplicates, and without `s[i]`. */
  lemma EraseKeepsDistinct(s: seq<nat>, i: nat)
    requires Distinct(s) && i < |s|
    ensures Distinct(s[..i] + s[i + 1..]) && s[i] !in s[..i] + s[i + 1..]
  {
    var e := s[..i] + s[i + 1..];
    forall a, b | 0 <= a < b < |e| ensures e[a] != e[b] {
      var a' := if a < i then a else a + 1;
      var b' := if b < i then b else b + 1;
      assert e[a] == s[a'] && e[b] == s[b'];
    }
    forall a | 0 <= a < |e| ensures e[a] != s[i] {
      assert e[a] == s[if a < i then a else a + 1];
    }
  }

  /** Disconnecting right after connecting a new monitor restores the lists. */
  lemma ConnectThenDisconnect(m: Manager, native: nat, addr: nat)
    requires Parallel(m) && addr !in Addresses(m.storage)
    requires FindNative(m.storage, native).None?
    ensures Disconnect(Connect(m, native, addr), native) == m
  {
    var c := Connect(m, native, addr);
    var i := |m.storage|;
    assert FindNative(c.storage, native) == Some(i) by {
      assert c.storage[i].native == native;
      assert forall j :: 0 <= j < i ==> c.storage[j] == m.storage[j];
      assert forall j :: 0 <= j < i ==> c.storage[j].native != native;
    }
    ConnectPreservesParallel(m, native, addr);
    assert c.monitors[i] == addr;
    EraseRemoveSingle(c.monitors, i);
    assert c.storage[..i] == m.storage;
    assert c.monitors[..i] == m.monitors;
  }

  // ---------------------------------------------------------------------
  // Window creation

  /** The eight backend window hints `CreateWindow` sets. */
  datatype Hints = Hints(resizable: bool, visible: bool, focused: bool, focusOnShow: bool,
                         decorated: bool, floating: bool, mousePassthrough: bool, scaleToMonitor: bool)

  /** What `CreateWindow` asks the backend for: the hints, then a window of
      the requested size and title, windowed and sharing no context. The
      size is the backend's signed `int`. */
  datatype WindowRequest = WindowRequest(hints: Hints, width: Int32, height: Int32, title: string)

  /** Whether bit `b` is set in `flags`. */
  predicate Has(flags: CreateFlags, b: CreateFlags) {
    flags & b != 0
  }

  /** `CreateWindow(info)`: every hint is on exactly when its flag bit is
      set; `FOCUSED` drives both the focused and focus-on-show hints. The
      `u32` size reaches the backend's `int` parameters, so a dimension of
      2^31 or more arrives negative. The title goes through `c_str()`, so
      the backend sees it only up to its first NUL. */
  function CreateWindow(m: Manager, info: WindowInfo): (r: WindowRequest)
    requires m.initialised
    ensures r.hints.resizable <==> Has(info.flags, RESIZABLE)
    ensures r.hints.visible <==> Has(info.flags, VISIBLE)
    ensures r.hints.focused <==> Has(info.flags, FOCUSED)
    ensures r.hints.focusOnShow == r.hints.focused
    ensures r.hints.decorated <==> Has(info.flags, DECORATED)
    ensures r.hints.floating <==> Has(info.flags, TOP_MOST)
    ensures r.hints.mousePassthrough <==> Has(info.flags, PASSTHROUGH)
    ensures r.hints.scaleToMonitor <==> Has(info.flags, HIGH_DPI)
    ensures r.title == CString(info.title)
    ensures '\0' !in info.title ==> r.title == info.title
    ensures info.width < 0x8000_0000 ==> r.width == info.width
    ensures info.height < 0x8000_0000 ==> r.height == info.height
    ensures info.width >= 0x8000_0000 ==> r.width < 0 && r.width == info.width - 0x1_0000_0000
    ensures info.height >= 0x8000_0000 ==> r.height < 0 && r.height == info.height - 0x1_0000_0000
  {
    var f := info.flags;
    WindowRequest(
      Hints(Has(f, RESIZABLE), Has(f, VISIBLE), Has(f, FOCUSED), Has(f, FOCUSED),
            Has(f, DECORATED), Has(f, TOP_MOST), Has(f, PASSTHROUGH), Has(f, HIGH_DPI)),
      SignedOf(info.width), SignedOf(info.height), CString(info.title))
  }

  /** A title with an embedded NUL reaches the backend cut at that NUL. */
  lemma CreateWindowCutsTitle(m: Manager, info: WindowInfo)
    requires m.initialised && info.title == "ab\0c"
    ensures CreateWindow(m, info).title == "ab"
  {
    assert info.title[1..] == "b\0c" && info.title[1..][1..] == "\0c";
  }

  /** The hints see only the seven defined bits, and they determine those
      bits: two flag words give the same hints iff they agree on 0x7F. */
  lemma HintsAreTheDefinedBits(m: Manager, a: WindowInfo, b: WindowInfo)
    requires m.initialised
    ensures CreateWindow(m, a).hints == CreateWindow(m, b).hints <==> a.flags & 0x7F == b.flags & 0x7F
  {
    var fa, fb := a.flags & 0x7F, b.flags & 0x7F;
    assert fa == b.flags & 0x7F ==> CreateWindow(m, a).hints == CreateWindow(m, b).hints by {
      BitsOfMasked(a.flags);
      BitsOfMasked(b.flags);
    }
    if CreateWindow(m, a).hints == CreateWindow(m, b).hints {
      BitsOfMasked(a.flags);
      BitsOfMasked(b.flags);
      SevenBitsDetermine(fa, fb);
    }
  }

  /** Masking with 0x7F keeps each of the seven bits. */
  lemma BitsOfMasked(f: CreateFlags)
    ensures forall b :: b in CreateBits ==> (Has(f & 0x7F, b) <==> Has(f, b))
  {
  }

  /** A 7-bit word is fixed by its seven bits. */
  lemma SevenBitsDetermine(x: CreateFlags, y: CreateFlags)
    requires x & 0x7F == x && y & 0x7F == y
    requires forall b :: b in CreateBits ==> (Has(x, b) <==> Has(y, b))
    ensures x == y
  {
    assert Has(x, RESIZABLE) <==> Has(y, RESIZABLE);
    assert Has(x, DECORATED) <==> Has(y, DECORATED);
    assert Has(x, VISIBLE) <==> Has(y, VISIBLE);
    assert Has(x, FOCUSED) <==> Has(y, FOCUSED);
    assert Has(x, PASSTHROUGH) <==> Has(y, PASSTHROUGH);
    assert Has(x, TOP_MOST) <==> Has(y, TOP_MOST);
    assert Has(x, HIGH_DPI) <==> Has(y, HIGH_DPI);
  }

  /** A default `WindowInfo` asks for a resizable, decorated, visible,
      focused window that is not floating, pass-through or scaled. */
  lemma DefaultHints(m: Manager)
    requires m.initialised
    ensures CreateWindow(m, DefaultWindowInfo()).hints ==
            Hints(true, true, true, true, true, false, false, false)
  {
    CreateBitsTable();
  }

  // ---------------------------------------------------------------------
  // Key translation

  /** The first character of the backend's key name, if the name is
      non-null and not empty as a C string. The source reads the first byte
      of the UTF-8 name as a `char`; the model reads the first character.
      The outcome is the same: a non-ASCII first byte is at least 0x80, so
      it is negative as a `char` and maps to nothing, and a non-ASCII
      character maps to nothing either. */
  function FirstChar(keyName: Option<string>): (c: Option<char>)
    ensures c.Some? ==> keyName.Some? && |keyName.value| > 0 && c.value == keyName.value[0] != '\0'
    ensures c.None? ==> keyName.None? || |keyName.value| == 0 || keyName.value[0] == '\0'
  {
    if keyName.Some? && |CString(keyName.value)| > 0 then Some(CString(keyName.value)[0])
    else None
  }

  /** The key code a key-name character stands for, or `fallback`. */
  function TranslateChar(c: char, fallback: KeyCode): KeyCode {
    if '0' <= c <= '9' then Key0 + (c as int - '0' as int)
    else if 'A' <= c <= 'Z' then KeyA + (c as int - 'A' as int)
    else if 'a' <= c <= 'z' then KeyA + (c as int - 'a' as int)
    else match c
      case '`' => GraveAccent
      case '-' => Minus
      case '=' => Equal
      case '[' => LeftBracket
      case ']' => RightBracket
      case '\\' => Backslash
      case ';' => Semicolon
      case '\'' => Apostrophe
      case ',' => Comma
      case '.' => Period
      case '/' => Slash
      case _ => fallback
  }

  /** `TranslateKey(key, scancode, source)`. `keyName` is what the backend
      names the key (`glfwGetKeyName(key, scancode)`, `None` for null).
      Physical codes and unnamed keys come back unchanged. */
  function TranslateKey(m: Manager, key: Int32, scancode: Int32, source: KeySource, keyName: Option<string>): (k: KeyCode)
    requires m.initialised
    ensures source == Physical ==> k == key
    ensures FirstChar(keyName).None? ==> k == key
    ensures source == Logical && FirstChar(keyName).Some? ==> k == TranslateChar(FirstChar(keyName).value, key)
  {
    if source == Physical then key
    else match FirstChar(keyName)
      case None => key
      case Some(c) => TranslateChar(c, key)
  }

  /** The characters the translation table knows. */
  predicate Mapped(c: char) {
    ('0' <= c <= '9') || ('A' <= c <= 'Z') || ('a' <= c <= 'z')
    || exists i :: 0 <= i < |PunctuationKeys| && PunctuationKeys[i].0 == c
  }

  /** ASCII upper-casing. */
  function AsciiUpper(c: char): char {
    if 'a' <= c <= 'z' then (c as int - 32) as char else c
  }

  /** A known character becomes the ASCII code of its upper-case form; any
      other character leaves the key unchanged. */
  lemma TranslateCharIsAscii(c: char, fallback: KeyCode)
    ensures Mapped(c) ==> TranslateChar(c, fallback) == AsciiUpper(c) as int
    ensures !Mapped(c) ==> TranslateChar(c, fallback) == fallback
  {
    PunctuationKeysAreAscii();
    if !Mapped(c) {
      assert forall i :: 0 <= i < |PunctuationKeys| ==> PunctuationKeys[i].0 != c;
      assert PunctuationKeys[0].0 == '\'' && PunctuationKeys[1].0 == ',' && PunctuationKeys[2].0 == '-';
      assert PunctuationKeys[3].0 == '.' && PunctuationKeys[4].0 == '/' && PunctuationKeys[5].0 == ';';
      assert PunctuationKeys[6].0 == '=' && PunctuationKeys[7].0 == '[' && PunctuationKeys[8].0 == '\\';
      assert PunctuationKeys[9].0 == ']' && PunctuationKeys[10].0 == '`';
    }
  }

  /** The translation agrees with the key tables: digit `d` gives
      `DigitKeys[d]`, both cases of letter `i` give `LetterKeys[i]`, and
      each punctuation character gives its key. */
  lemma TranslateCharAgreesWithTables(fallback: KeyCode)
    ensures forall d :: 0 <= d < 10 ==> TranslateChar(('0' as int + d) as char, fallback) == DigitKeys[d]
    ensures forall i :: 0 <= i < 26 ==> TranslateChar(('A' as int + i) as char, fallback) == LetterKeys[i]
    ensures forall i :: 0 <= i < 26 ==> TranslateChar(('a' as int + i) as char, fallback) == LetterKeys[i]
    ensures forall i :: 0 <= i < |PunctuationKeys| ==> TranslateChar(PunctuationKeys[i].0, fallback) == PunctuationKeys[i].1
  {
    DigitKeysAreAscii();
    LetterKeysAreAscii();
    PunctuationKeysAreAscii();
  }

  /** A key whose name starts with a lower-case letter translates like the
      one whose name starts with the upper-case letter. */
  lemma TranslateKeyIgnoresCase(m: Manager, key: Int32, scancode: Int32, c: char, rest: string)
    requires m.initialised && 'a' <= c <= 'z'
    ensures TranslateKey(m, key, scancode, Logical, Some([c] + rest))
         == TranslateKey(m, key, scancode, Logical, Some([AsciiUpper(c)] + rest))
  {
  }
}
