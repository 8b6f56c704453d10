/** Handlers and the per-type dispatcher: an insertion-ordered list of
    handlers, each identified by a GUID token rather than by its callable. */
module InputEventDispatcher {
  import opened Common
  import opened InputEvent

  /** A GUID: the distinguished `Invalid` value, or a valid identifier. */
  datatype Guid = Invalid | Id(n: nat)
  {
    predicate Valid() {
      Id?
    }
  }

  /** The wrapped callable, seen only through its identity: empty, or an
      opaque function value. */
  datatype Callable = Empty | Fn(tag: nat)

  /** `InputEventHandler<E>`: a callable plus its identity token. */
  datatype Handler = Handler(fn: Callable, handle: Guid)

  /** The default-constructed handler: no callable, invalid token. */
  function DefaultHandler(): (h: Handler)
    ensures h.fn == Empty && !h.handle.Valid()
  {
    Handler(Empty, Invalid)
  }

  /** Construction from a callable: `token` is the newly generated GUID. */
  function NewHandler(fn: Callable, token: Guid): (h: Handler)
    requires token.Valid()
    ensures h.fn == fn && h.handle == token && h.handle.Valid()
  {
    Handler(fn, token)
  }

  /** `operator==`: handlers are equal exactly when their tokens are. */
  predicate Same(a: Handler, b: Handler) {
    a.handle == b.handle
  }

  /** Handler equality ignores the callable entirely: it is an equivalence
      determined by the token alone. */
  lemma SameIgnoresCallable(a: Handler, b: Handler, f: Callable, g: Callable)
    ensures Same(a, b) <==> Same(a.(fn := f), b.(fn := g))
    ensures Same(a, b) <==> a.handle == b.handle
    ensures Same(a, a)
  {
  }

  /** The result of an operation that writes to two handlers. */
  datatype HandlerPair = HandlerPair(dst: Handler, src: Handler)

  /** Copy-construction: the new handler gets both the callable and the
      token; the source is untouched. */
  function CopyConstruct(src: Handler): (p: HandlerPair)
    ensures p.dst.handle == src.handle && p.dst.fn == src.fn
    ensures p.src == src
  {
    HandlerPair(src, src)
  }

  /** Copy-assignment: a no-op when the two already share a token;
      otherwise the destination takes the source's callable and token. */
  function CopyAssign(dst: Handler, src: Handler): (p: HandlerPair)
    ensures p.src == src
    ensures Same(dst, src) ==> p.dst == dst
    ensures !Same(dst, src) ==> p.dst.fn == src.fn && p.dst.handle == src.handle
    ensures Same(p.dst, src)
  {
    if Same(dst, src) then HandlerPair(dst, src) else HandlerPair(src, src)
  }

  /** Move-construction: callable and token move to the new handler; the
      source is left with an empty callable and the invalid token. */
  function MoveConstruct(src: Handler): (p: HandlerPair)
    ensures p.dst == src
    ensures p.src.fn == Empty && !p.src.handle.Valid()
  {
    HandlerPair(src, DefaultHandler())
  }

  /** Move-assignment: a no-op on both sides when the two already share a
      token; otherwise the destination takes everything and the source is
      emptied and invalidated. */
  function MoveAssign(dst: Handler, src: Handler): (p: HandlerPair)
    ensures Same(dst, src) ==> p.dst == dst && p.src == src
    ensures !Same(dst, src) ==> p.dst == src && p.src.fn == Empty && !p.src.handle.Valid()
  {
    if Same(dst, src) then HandlerPair(dst, src) else HandlerPair(src, DefaultHandler())
  }

  /** Assigning from a copy of a handler keeps the source valid: copying
      then move-assigning back changes neither side. */
  lemma MoveAssignFromCopyIsNoOp(h: Handler)
    requires h.handle.Valid()
    ensures var copy := CopyConstruct(h).dst;
            MoveAssign(copy, h) == HandlerPair(copy, h) && MoveAssign(copy, h).src.handle.Valid()
  {
  }

  /** `InputEventDispatcher<E>`: the handlers for event kind `kind`, in
      bind order. */
  datatype Dispatcher = Dispatcher(kind: EventType, functions: seq<Handler>)

  /** The tokens of a handler list, in order. */
  function Tokens(fs: seq<Handler>): (ts: seq<Guid>)
    ensures |ts| == |fs|
    ensures forall i :: 0 <= i < |fs| ==> ts[i] == fs[i].handle
  {
    seq(|fs|, i requires 0 <= i < |fs| => fs[i].handle)
  }

  /** The dispatcher's invariant: every token valid, no token twice. */
  ghost predicate WellFormed(d: Dispatcher) {
    && (forall i :: 0 <= i < |d.functions| ==> d.functions[i].handle.Valid())
    && (forall i, j :: 0 <= i < j < |d.functions| ==> d.functions[i].handle != d.functions[j].handle)
  }

  /** A newly constructed dispatcher for kind `kind`. */
  function NewDispatcher(kind: EventType): (d: Dispatcher)
    ensures d.kind == kind && |d.functions| == 0 && WellFormed(d)
  {
    Dispatcher(kind, [])
  }

  /** The first position at or after `from` holding token `g`. */
  function FindFrom(fs: seq<Handler>, g: Guid, from: nat): (r: Option<nat>)
    requires from <= |fs|
    ensures r.None? <==> forall i :: from <= i < |fs| ==> fs[i].handle != g
    ensures r.Some? ==> from <= r.value < |fs| && fs[r.value].handle == g
    ensures r.Some? ==> forall i :: from <= i < r.value ==> fs[i].handle != g
    decreases |fs| - from
  {
    if from == |fs| then None
    else if fs[from].handle == g then Some(from)
    else FindFrom(fs, g, from + 1)
  }

  /** The first position holding token `g`, as `eastl::find` and the
      index loop of `Unbind` compute it. */
  function Find(fs: seq<Handler>, g: Guid): (r: Option<nat>)
    ensures r.None? <==> g !in Tokens(fs)
    ensures r.Some? ==> r.value < |fs| && fs[r.value].handle == g
    ensures r.Some? ==> forall i :: 0 <= i < r.value ==> fs[i].handle != g
  {
    var r := FindFrom(fs, g, 0);
    assert r.None? ==> g !in Tokens(fs);
    r
  }

  /** The result of `Bind`/`Unbind`: the new dispatcher and the returned flag. */
  datatype Outcome = Outcome(dispatcher: Dispatcher, ok: bool)

  /** `Bind`: refuses a handler whose token is already present, otherwise
      appends it at the end. */
  function Bind(d: Dispatcher, h: Handler): (r: Outcome)
    requires h.handle.Valid()
    ensures r.ok <==> h.handle !in Tokens(d.functions)
    ensures r.ok ==> r.dispatcher == d.(functions := d.functions + [h])
    ensures !r.ok ==> r.dispatcher == d
  {
    if Find(d.functions, h.handle).Some? then Outcome(d, false)
    else Outcome(d.(functions := d.functions + [h]), true)
  }

  /** `Unbind`: removes the first handler with the same token, keeping the
      others in order; fails without change when there is none. */
  function Unbind(d: Dispatcher, h: Handler): (r: Outcome)
    requires h.handle.Valid()
    ensures r.ok <==> h.handle in Tokens(d.functions)
    ensures !r.ok ==> r.dispatcher == d
    ensures r.ok ==>
      var i := Find(d.functions, h.handle).value;
      && r.dispatcher == d.(functions := d.functions[..i] + d.functions[i + 1..])
      && d.functions[i].handle == h.handle
      && (forall j :: 0 <= j < i ==> d.functions[j].handle != h.handle)
  {
    match Find(d.functions, h.handle)
    case None => Outcome(d, false)
    case Some(i) => Outcome(d.(functions := d.functions[..i] + d.functions[i + 1..]), true)
  }

  /** `Bind` keeps the invariant. */
  lemma BindPreservesWellFormed(d: Dispatcher, h: Handler)
    requires WellFormed(d) && h.handle.Valid()
    ensures WellFormed(Bind(d, h).dispatcher)
    ensures Bind(d, h).dispatcher.kind == d.kind
  {
  }

  /** Removing one entry from a list with distinct valid tokens keeps them
      distinct and valid, and the removed token is gone. */
  lemma {:induction false} RemoveAtPreserves(d: Dispatcher, i: nat)
    requires WellFormed(d) && i < |d.functions|
    ensures var d' := d.(functions := d.functions[..i] + d.functions[i + 1..]);
            WellFormed(d') && d.functions[i].handle !in Tokens(d'.functions)
  {
    var fs := d.functions;
    var rest := fs[..i] + fs[i + 1..];
    forall k | 0 <= k < |rest| ensures rest[k] == if k < i then fs[k] else fs[k + 1] {
    }
    assert forall k :: 0 <= k < |rest| ==> rest[k].handle != fs[i].handle by {
      forall k | 0 <= k < |rest| ensures rest[k].handle != fs[i].handle {
        if k < i {
          assert rest[k] == fs[k];
        } else {
          assert rest[k] == fs[k + 1];
        }
      }
    }
    forall a, b | 0 <= a < b < |rest| ensures rest[a].handle != rest[b].handle {
      var a' := if a < i then a else a + 1;
      var b' := if b < i then b else b + 1;
      assert rest[a] == fs[a'] && rest[b] == fs[b'] && a' < b';
    }
  }

  /** `Unbind` keeps the invariant, and afterwards the token is no longer
      bound, so no later `Dispatch` invokes it. */
  lemma UnbindPreservesWellFormed(d: Dispatcher, h: Handler)
    requires WellFormed(d) && h.handle.Valid()
    ensures WellFormed(Unbind(d, h).dispatcher)
    ensures Unbind(d, h).dispatcher.kind == d.kind
    ensures h.handle !in Tokens(Unbind(d, h).dispatcher.functions)
  {
    match Find(d.functions, h.handle)
    case None =>
    case Some(i) => RemoveAtPreserves(d, i);
  }

  /** Binding a new handler and then unbinding it restores the dispatcher
      exactly, and both calls succeed. */
  lemma BindUnbindRoundTrip(d: Dispatcher, h: Handler)
    requires h.handle.Valid() && h.handle !in Tokens(d.functions)
    ensures Bind(d, h).ok
    ensures Unbind(Bind(d, h).dispatcher, h) == Outcome(d, true)
  {
    var fs := d.functions;
    var fs' := fs + [h];
    assert Tokens(fs')[|fs|] == h.handle;
    var i := Find(fs', h.handle).value;
    assert i == |fs|;
    assert fs'[..i] + fs'[i + 1..] == fs;
  }

  /** A bound token occurs exactly once, so a dispatch invokes it once. */
  lemma BoundOnce(d: Dispatcher, h: Handler)
    requires WellFormed(d) && h.handle.Valid()
    ensures var d' := Bind(d, h).dispatcher;
            multiset(Tokens(d'.functions))[h.handle] == 1
  {
    var d' := Bind(d, h).dispatcher;
    BindPreservesWellFormed(d, h);
    if Bind(d, h).ok {
      assert Tokens(d'.functions)[|d.functions|] == h.handle;
    }
    var k := Find(d'.functions, h.handle).value;
    DistinctCountsOnce(d', k);
  }

  /** In a well-formed dispatcher each bound token occurs exactly once. */
  lemma {:induction false} DistinctCountsOnce(d: Dispatcher, k: nat)
    requires WellFormed(d) && k < |d.functions|
    ensures multiset(Tokens(d.functions))[d.functions[k].handle] == 1
  {
    var fs := d.functions;
    var g := fs[k].handle;
    var ts := Tokens(fs);
    assert ts == Tokens(fs[..k]) + [g] + Tokens(fs[k + 1..]);
    assert g !in Tokens(fs[..k]);
    var tail := fs[k + 1..];
    assert g !in Tokens(tail) by {
      forall j | 0 <= j < |tail| ensures tail[j].handle != g {
        assert tail[j] == fs[k + 1 + j];
      }
    }
    assert multiset(ts) == multiset(Tokens(fs[..k])) + multiset{g} + multiset(Tokens(fs[k + 1..]));
  }

  /** A moved-from handler carries the invalid token, which a well-formed
      dispatcher never holds: it cannot be passed to `Unbind` (the assert
      fails), and a build without asserts finds nothing to remove. */
  lemma MovedFromNeverMatches(d: Dispatcher, h: Handler)
    requires WellFormed(d)
    ensures var moved := MoveConstruct(h).src;
            !moved.handle.Valid() && Find(d.functions, moved.handle).None?
  {
  }

  /** The handled flag after each handler has run on the event in turn. */
  function Deliver(fs: seq<Handler>, e: Event, react: (Callable, Event) -> bool): (out: Event)
    ensures out.Sender() == e.Sender() && out.payload == e.payload
    decreases |fs|
  {
    if |fs| == 0 then e
    else Deliver(fs[1..], e.WithHandled(react(fs[0].fn, e)), react)
  }

  /** `Dispatch`: invokes every handler once, in bind order, passing the
      event along; `react` stands for the callables, returning the handled
      flag each one leaves. The flag is never consulted, so a handler that
      marks the event handled does not stop the ones after it. Returns the
      tokens in the order their handlers ran, and the event as the last
      handler left it. */
  method Dispatch(d: Dispatcher, e: Event, react: (Callable, Event) -> bool)
    returns (invoked: seq<Guid>, out: Event)
    requires e.GetType() == d.kind
    requires Invalid !in Tokens(d.functions)
    ensures invoked == Tokens(d.functions)
    ensures out == Deliver(d.functions, e, react)
    ensures out.Sender() == e.Sender() && out.payload == e.payload && out.GetType() == d.kind
  {
    var fs := d.functions;
    invoked := [];
    out := e;
    var i := 0;
    while i < |fs|
      invariant 0 <= i <= |fs|
      invariant invoked == Tokens(fs[..i])
      invariant Deliver(fs[i..], out, react) == Deliver(fs, e, react)
    {
      assert Tokens(fs)[i] == fs[i].handle;
      assert fs[i].handle.Valid();
      invoked := invoked + [fs[i].handle];
      out := out.WithHandled(react(fs[i].fn, out));
      assert fs[i..][1..] == fs[i + 1..];
      i := i + 1;
    }
    assert fs[..i] == fs;
  }

  /** The three-handler scenario of the unit tests: bind A, B, C and unbind
      B; a dispatch then reaches A and C only, in that order. */
  lemma UnbindMiddleOfThree(kind: EventType, a: Handler, b: Handler, c: Handler)
    requires a.handle.Valid() && b.handle.Valid() && c.handle.Valid()
    requires a.handle != b.handle && b.handle != c.handle && a.handle != c.handle
    ensures var d1 := Bind(NewDispatcher(kind), a).dispatcher;
            var d2 := Bind(d1, b).dispatcher;
            var d3 := Bind(d2, c).dispatcher;
            var r := Unbind(d3, b);
            r.ok && Tokens(r.dispatcher.functions) == [a.handle, c.handle]
  {
    BindThree(kind, a, b, c);
    var d3 := Bind(Bind(Bind(NewDispatcher(kind), a).dispatcher, b).dispatcher, c).dispatcher;
    UnbindSecond(d3, a, b, c);
  }

  lemma BindThree(kind: EventType, a: Handler, b: Handler, c: Handler)
    requires a.handle.Valid() && b.handle.Valid() && c.handle.Valid()
    requires a.handle != b.handle && b.handle != c.handle && a.handle != c.handle
    ensures Bind(Bind(Bind(NewDispatcher(kind), a).dispatcher, b).dispatcher, c).dispatcher.functions == [a, b, c]
  {
    var d1 := Bind(NewDispatcher(kind), a).dispatcher;
    assert d1.functions == [a] && Tokens(d1.functions) == [a.handle];
    var d2 := Bind(d1, b).dispatcher;
    assert d2.functions == [a, b] && Tokens(d2.functions) == [a.handle, b.handle];
  }

  lemma UnbindSecond(d: Dispatcher, a: Handler, b: Handler, c: Handler)
    requires d.functions == [a, b, c] && b.handle.Valid()
    requires a.handle != b.handle
    ensures Unbind(d, b).ok && Tokens(Unbind(d, b).dispatcher.functions) == [a.handle, c.handle]
  {
    assert Tokens(d.functions)[1] == b.handle;
    var i := Find(d.functions, b.handle).value;
    assert i == 1;
    assert d.functions[..1] + d.functions[2..] == [a, c];
  }
}
