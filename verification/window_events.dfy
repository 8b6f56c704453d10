/** `WindowEvents`: one dispatcher per event kind, held in a ten-slot array
    indexed by the kind's enum value. */
module WindowEvents {
  import opened Common
  import opened InputEvent
  import opened InputEventDispatcher

  /** The event kind whose dispatcher lives in slot `i`. */
  function KindAt(i: nat): (t: EventType)
    requires i < COUNT
    ensures Ordinal(t) == i
  {
    OrdinalBijection();
    FromOrdinal(i).value
  }

  /** `InputEventMap`: the slot array. */
  datatype EventMap = EventMap(slots: seq<Dispatcher>)

  /** Ten slots, slot `i` holding the dispatcher of kind `i`: the variant
      alternative stored at an index always matches that index. */
  ghost predicate Shaped(m: EventMap) {
    |m.slots| == COUNT && forall i :: 0 <= i < COUNT ==> m.slots[i].kind == KindAt(i)
  }

  /** Shaped, and every dispatcher keeps its own invariant. */
  ghost predicate WellFormedMap(m: EventMap) {
    Shaped(m) && forall i :: 0 <= i < COUNT ==> WellFormed(m.slots[i])
  }

  /** A newly constructed registry: ten empty dispatchers in enum order. */
  function NewEventMap(): (m: EventMap)
    ensures WellFormedMap(m)
    ensures forall i :: 0 <= i < |m.slots| ==> |m.slots[i].functions| == 0
  {
    EventMap(seq(COUNT, i requires 0 <= i < COUNT => NewDispatcher(KindAt(i))))
  }

  /** `GetEventDispatcher<E>`: the slot of `E::Type`, which always holds a
      dispatcher for that very kind. */
  function GetEventDispatcher(m: EventMap, t: EventType): (d: Dispatcher)
    requires Shaped(m)
    ensures d.kind == t
    ensures d in m.slots
  {
    m.slots[Ordinal(t)]
  }

  /** The registry with the dispatcher of kind `d.kind` replaced by `d`. */
  function Replace(m: EventMap, d: Dispatcher): (m': EventMap)
    requires Shaped(m)
    ensures Shaped(m')
    ensures GetEventDispatcher(m', d.kind) == d
    ensures forall t :: t != d.kind ==> GetEventDispatcher(m', t) == GetEventDispatcher(m, t)
  {
    var m' := EventMap(m.slots[Ordinal(d.kind) := d]);
    OrdinalBijection();
    m'
  }

  /** The result of `BindEvent(handler)` / `UnbindEvent`. */
  datatype MapOutcome = MapOutcome(events: EventMap, ok: bool)

  /** `BindEvent(handler)`: `Bind` on the dispatcher of kind `t`; returns
      what that returns, and no other dispatcher changes. */
  function BindEvent(m: EventMap, t: EventType, h: Handler): (r: MapOutcome)
    requires Shaped(m) && h.handle.Valid()
    ensures Shaped(r.events)
    ensures r.ok == Bind(GetEventDispatcher(m, t), h).ok
    ensures GetEventDispatcher(r.events, t) == Bind(GetEventDispatcher(m, t), h).dispatcher
    ensures forall u :: u != t ==> GetEventDispatcher(r.events, u) == GetEventDispatcher(m, u)
  {
    var b := Bind(GetEventDispatcher(m, t), h);
    MapOutcome(Replace(m, b.dispatcher), b.ok)
  }

  /** `UnbindEvent(handler)`: `Unbind` on the dispatcher of kind `t`;
      returns what that returns, and no other dispatcher changes. */
  function UnbindEvent(m: EventMap, t: EventType, h: Handler): (r: MapOutcome)
    requires Shaped(m) && h.handle.Valid()
    ensures Shaped(r.events)
    ensures r.ok == Unbind(GetEventDispatcher(m, t), h).ok
    ensures GetEventDispatcher(r.events, t) == Unbind(GetEventDispatcher(m, t), h).dispatcher
    ensures forall u :: u != t ==> GetEventDispatcher(r.events, u) == GetEventDispatcher(m, u)
  {
    var b := Unbind(GetEventDispatcher(m, t), h);
    MapOutcome(Replace(m, b.dispatcher), b.ok)
  }

  /** The result of `BindEvent(fn)`: the registry and the new handler. */
  datatype BoundHandler = BoundHandler(events: EventMap, handler: Handler)

  /** `BindEvent(fn)`: wraps `fn` in a new handler whose token `token` is
      freshly generated, binds it to the dispatcher of kind `t` and returns
      it. A fresh token is never invalid and never already bound. */
  function BindEventFn(m: EventMap, t: EventType, fn: Callable, token: Guid): (r: BoundHandler)
    requires Shaped(m) && token.Valid()
    requires token !in Tokens(GetEventDispatcher(m, t).functions)
    ensures Shaped(r.events)
    ensures r.handler.fn == fn && r.handler.handle == token
    ensures GetEventDispatcher(r.events, t).functions == GetEventDispatcher(m, t).functions + [r.handler]
    ensures forall u :: u != t ==> GetEventDispatcher(r.events, u) == GetEventDispatcher(m, u)
  {
    var h := NewHandler(fn, token);
    BoundHandler(BindEvent(m, t, h).events, h)
  }

  /** The handle returned by `BindEvent(fn)` unbinds what it bound: the
      registry is back where it started. */
  lemma BindEventFnThenUnbind(m: EventMap, t: EventType, fn: Callable, token: Guid)
    requires Shaped(m) && token.Valid()
    requires token !in Tokens(GetEventDispatcher(m, t).functions)
    ensures var r := BindEventFn(m, t, fn, token);
            UnbindEvent(r.events, t, r.handler) == MapOutcome(m, true)
  {
    var r := BindEventFn(m, t, fn, token);
    var d := GetEventDispatcher(m, t);
    BindUnbindRoundTrip(d, r.handler);
    var u := UnbindEvent(r.events, t, r.handler);
    assert GetEventDispatcher(u.events, t) == d;
    SameDispatchersSameMap(u.events, m);
  }

  /** Two shaped registries with the same dispatcher for every kind are equal. */
  lemma SameDispatchersSameMap(a: EventMap, b: EventMap)
    requires Shaped(a) && Shaped(b)
    requires forall t :: GetEventDispatcher(a, t) == GetEventDispatcher(b, t)
    ensures a == b
  {
    forall i | 0 <= i < COUNT ensures a.slots[i] == b.slots[i] {
      assert GetEventDispatcher(a, KindAt(i)) == GetEventDispatcher(b, KindAt(i));
    }
  }

  /** Binding and unbinding keep every dispatcher's invariant. */
  lemma BindUnbindPreserveWellFormedMap(m: EventMap, t: EventType, h: Handler)
    requires WellFormedMap(m) && h.handle.Valid()
    ensures WellFormedMap(BindEvent(m, t, h).events)
    ensures WellFormedMap(UnbindEvent(m, t, h).events)
  {
    BindPreservesWellFormed(GetEventDispatcher(m, t), h);
    UnbindPreservesWellFormed(GetEventDispatcher(m, t), h);
    var b := BindEvent(m, t, h).events;
    var u := UnbindEvent(m, t, h).events;
    forall i | 0 <= i < COUNT ensures WellFormed(b.slots[i]) && WellFormed(u.slots[i]) {
      var k := KindAt(i);
      assert b.slots[i] == GetEventDispatcher(b, k) && u.slots[i] == GetEventDispatcher(u, k);
      assert m.slots[i] == GetEventDispatcher(m, k);
    }
  }

  /** `GetEventDispatcher<E>().Dispatch(e)`: delivers `e` to the handlers of
      its own kind only; the registry itself is not changed. */
  method DispatchEvent(m: EventMap, e: Event, react: (Callable, Event) -> bool)
    returns (invoked: seq<Guid>, out: Event)
    requires WellFormedMap(m)
    ensures invoked == Tokens(GetEventDispatcher(m, e.GetType()).functions)
    ensures out.Sender() == e.Sender() && out.payload == e.payload
  {
    var d := GetEventDispatcher(m, e.GetType());
    assert d == m.slots[Ordinal(e.GetType())];
    invoked, out := Dispatch(d, e, react);
  }
}
