/**
  The in-process notification bus of lib/sse-bus.ts: a Set of listener callbacks,
  `subscribe` returning an unsubscribe closure, `emit` calling every listener of a
  snapshot of the Set and swallowing what they throw, and the get-or-create
  singleton kept in `globalThis.__SSE_BUS__`.

  A listener is a JavaScript function object; here it is an opaque identity. What a
  listener does when called is outside the bus, except for the two things that matter
  to it: whether the call throws, and which subscribe/unsubscribe calls the listener
  makes on the bus while it runs (re-entrancy).
 */
module SseBus {

  /** Identity of a listener function object. */
  type ListenerId = nat

  /** What `emit` passes to every listener: nothing (`emit()`), `{event: "changed"}`,
      or `{event: "changed", op: "update", id}`. */
  datatype Payload = NoPayload | Changed | ChangedUpdate(id: string)

  /** One invocation of a listener by `emit`: who, with what, and whether it threw. */
  datatype Call = Call(listener: ListenerId, payload: Payload, threw: bool)

  /** A bus operation a listener performs while `emit` is calling it. */
  datatype Reentry = Subscribe(fn: ListenerId) | Unsubscribe(fn: ListenerId)

  /** The returned closure `() => this.listeners.delete(fn)`, identified by its `fn`. */
  datatype Unsubscriber = Unsubscriber(fn: ListenerId)

  /* ---------------- the listener Set as an insertion-ordered sequence ---------------- */

  /** No listener occurs twice. */
  predicate Distinct(ls: seq<ListenerId>) {
    forall i, j :: 0 <= i < j < |ls| ==> ls[i] != ls[j]
  }

  /** `Set.prototype.add`: a new element goes to the end, an existing one keeps its place. */
  function Added(ls: seq<ListenerId>, fn: ListenerId): seq<ListenerId> {
    if fn in ls then ls else ls + [fn]
  }

  /** After `add(fn)` exactly the old elements and `fn` are present, the old ones first
      and in their order, and a duplicate-free Set stays so. */
  lemma AddedSpec(ls: seq<ListenerId>, fn: ListenerId)
    ensures forall x :: x in Added(ls, fn) <==> x in ls || x == fn
    ensures ls <= Added(ls, fn) && |Added(ls, fn)| <= |ls| + 1
    ensures Distinct(ls) ==> Distinct(Added(ls, fn))
  {
  }

  /** `Set.prototype.delete`: every other element stays, in its order. */
  function Removed(ls: seq<ListenerId>, fn: ListenerId): seq<ListenerId> {
    if ls == [] then []
    else if ls[0] == fn then Removed(ls[1..], fn)
    else [ls[0]] + Removed(ls[1..], fn)
  }

  /** After `delete(fn)` exactly the other elements are present; an absent `fn` changes
      nothing, and a duplicate-free Set stays so. */
  lemma {:induction false} RemovedSpec(ls: seq<ListenerId>, fn: ListenerId)
    ensures forall x :: x in Removed(ls, fn) <==> x in ls && x != fn
    ensures |Removed(ls, fn)| <= |ls|
    ensures fn !in ls ==> Removed(ls, fn) == ls
    ensures Distinct(ls) ==> Distinct(Removed(ls, fn))
  {
    if ls != [] {
      RemovedSpec(ls[1..], fn);
      assert ls == [ls[0]] + ls[1..];
      assert Distinct(ls) ==> Distinct(ls[1..]) && ls[0] !in ls[1..];
    }
  }

  /** Removing a listener that sits at position `k` of a duplicate-free Set leaves exactly
      the elements before and after it, in their order. */
  lemma {:induction false} RemovedAt(ls: seq<ListenerId>, k: nat)
    requires Distinct(ls) && k < |ls|
    ensures Removed(ls, ls[k]) == ls[..k] + ls[k + 1..]
  {
    if k == 0 {
      assert ls[0] !in ls[1..];
      RemovedSpec(ls[1..], ls[0]);
    } else {
      assert Distinct(ls[1..]);
      RemovedAt(ls[1..], k - 1);
      assert ls[1..][k - 1] == ls[k];
      assert ls[1..][..k - 1] == ls[1..k];
      assert ls[1..][k..] == ls[k + 1..];
    }
  }

  lemma {:induction false} RemovedAppend(ls: seq<ListenerId>, tail: seq<ListenerId>, fn: ListenerId)
    ensures Removed(ls + tail, fn) == Removed(ls, fn) + Removed(tail, fn)
  {
    if ls != [] {
      assert (ls + tail)[1..] == ls[1..] + tail;
      RemovedAppend(ls[1..], tail, fn);
    } else {
      assert ls + tail == tail;
    }
  }

  /** Unsubscribing a listener that was newly subscribed restores the Set exactly. */
  lemma UnsubscribeUndoesSubscribe(ls: seq<ListenerId>, fn: ListenerId)
    requires fn !in ls
    ensures Removed(Added(ls, fn), fn) == ls
  {
    RemovedAppend(ls, [fn], fn);
    RemovedSpec(ls, fn);
    assert Removed([fn], fn) == [];
  }

  /** Subscribing the same function twice leaves one entry. */
  lemma SubscribeTwice(ls: seq<ListenerId>, fn: ListenerId)
    ensures Added(Added(ls, fn), fn) == Added(ls, fn)
    ensures Distinct(ls) ==> multiset(Added(Added(ls, fn), fn))[fn] == 1
  {
    if Distinct(ls) { DistinctCount(Added(ls, fn), fn); }
  }

  lemma {:induction false} DistinctCount(ls: seq<ListenerId>, fn: ListenerId)
    requires Distinct(ls) && fn in ls
    ensures multiset(ls)[fn] == 1
  {
    assert ls == [ls[0]] + ls[1..];
    if ls[0] == fn {
      assert fn !in ls[1..];
    } else {
      DistinctCount(ls[1..], fn);
    }
  }

  /** The returned unsubscribe is safe to call again: the second call changes nothing. */
  lemma UnsubscribeTwice(ls: seq<ListenerId>, fn: ListenerId)
    ensures Removed(Removed(ls, fn), fn) == Removed(ls, fn)
  {
  }

  /* ---------------- what one emit does ---------------- */

  /** The calls `emit(payload)` makes: one per listener of the snapshot, in its order. */
  function Deliveries(snapshot: seq<ListenerId>, payload: Payload, throwing: set<ListenerId>): (r: seq<Call>)
    ensures |r| == |snapshot|
  {
    seq(|snapshot|, k requires 0 <= k < |snapshot| => Call(snapshot[k], payload, snapshot[k] in throwing))
  }

  function CallsTo(calls: seq<Call>, fn: ListenerId): nat {
    if calls == [] then 0
    else (if calls[0].listener == fn then 1 else 0) + CallsTo(calls[1..], fn)
  }

  /** Every listener of the snapshot is called exactly once, no other function at all,
      whichever listeners throw. */
  lemma {:induction false} DeliveredExactlyOnce(snapshot: seq<ListenerId>, payload: Payload,
                                                throwing: set<ListenerId>, fn: ListenerId)
    requires Distinct(snapshot)
    ensures CallsTo(Deliveries(snapshot, payload, throwing), fn) == if fn in snapshot then 1 else 0
  {
    var d := Deliveries(snapshot, payload, throwing);
    if snapshot != [] {
      assert d[1..] == Deliveries(snapshot[1..], payload, throwing);
      assert Distinct(snapshot[1..]);
      DeliveredExactlyOnce(snapshot[1..], payload, throwing, fn);
      assert snapshot == [snapshot[0]] + snapshot[1..];
      assert snapshot[0] !in snapshot[1..];
    }
  }

  /** A throwing listener changes nothing about who is called, in what order and with
      what payload: only its own `threw` flag differs. */
  lemma ThrowingIsIsolated(snapshot: seq<ListenerId>, payload: Payload, throwing: set<ListenerId>, k: nat)
    requires k < |snapshot|
    ensures Deliveries(snapshot, payload, throwing)[k].listener == Deliveries(snapshot, payload, {})[k].listener
    ensures Deliveries(snapshot, payload, throwing)[k].payload == payload
    ensures Deliveries(snapshot, payload, throwing)[k].threw <==> snapshot[k] in throwing
  {
  }

  /** The Set after `reaction` ran the re-entrant operations of the listeners of `called`. */
  function AfterReentry(ls: seq<ListenerId>, called: seq<ListenerId>,
                        reaction: map<ListenerId, seq<Reentry>>): seq<ListenerId>
    decreases called
  {
    if called == [] then ls
    else AfterReentry(ApplyAll(ls, OpsOf(reaction, called[0])), called[1..], reaction)
  }

  function OpsOf(reaction: map<ListenerId, seq<Reentry>>, fn: ListenerId): seq<Reentry> {
    if fn in reaction then reaction[fn] else []
  }

  function Apply(ls: seq<ListenerId>, op: Reentry): seq<ListenerId> {
    match op
    case Subscribe(f) => Added(ls, f)
    case Unsubscribe(f) => Removed(ls, f)
  }

  function ApplyAll(ls: seq<ListenerId>, ops: seq<Reentry>): seq<ListenerId>
    decreases ops
  {
    if ops == [] then ls else ApplyAll(Apply(ls, ops[0]), ops[1..])
  }

  lemma {:induction false} ApplyAllSnoc(ls: seq<ListenerId>, ops: seq<Reentry>, op: Reentry)
    ensures ApplyAll(ls, ops + [op]) == Apply(ApplyAll(ls, ops), op)
    decreases ops
  {
    if ops != [] {
      assert (ops + [op])[1..] == ops[1..] + [op];
      ApplyAllSnoc(Apply(ls, ops[0]), ops[1..], op);
    }
  }

  lemma {:induction false} AfterReentrySnoc(ls: seq<ListenerId>, called: seq<ListenerId>, fn: ListenerId,
                                            reaction: map<ListenerId, seq<Reentry>>)
    ensures AfterReentry(ls, called + [fn], reaction)
         == ApplyAll(AfterReentry(ls, called, reaction), OpsOf(reaction, fn))
    decreases called
  {
    if called != [] {
      assert (called + [fn])[1..] == called[1..] + [fn];
      AfterReentrySnoc(ApplyAll(ls, OpsOf(reaction, called[0])), called[1..], fn, reaction);
    }
  }

  /** `emit` by itself never changes the Set: only listeners that subscribe or unsubscribe
      while being called do. */
  lemma {:induction false} EmitKeepsSet(ls: seq<ListenerId>, called: seq<ListenerId>)
    ensures AfterReentry(ls, called, map[]) == ls
    decreases called
  {
    if called != [] { EmitKeepsSet(ls, called[1..]); }
  }

  lemma {:induction false} ApplyAllDistinct(ls: seq<ListenerId>, ops: seq<Reentry>)
    requires Distinct(ls)
    ensures Distinct(ApplyAll(ls, ops))
    decreases ops
  {
    if ops != [] {
      match ops[0] {
        case Subscribe(f) => AddedSpec(ls, f);
        case Unsubscribe(f) => RemovedSpec(ls, f);
      }
      ApplyAllDistinct(Apply(ls, ops[0]), ops[1..]);
    }
  }

  /* ---------------- the bus object ---------------- */

  class Bus {
    /** `listeners`, in insertion order. */
    var listeners: seq<ListenerId>

    ghost predicate Valid()
      reads this
    {
      Distinct(listeners)
    }

    constructor ()
      ensures Valid() && listeners == []
    {
      listeners := [];
    }

    /** `subscribe(fn)`: adds `fn` and hands back the closure that removes it. */
    method Subscribe(fn: ListenerId) returns (unsubscribe: Unsubscriber)
      requires Valid()
      modifies this
      ensures Valid()
      ensures listeners == Added(old(listeners), fn) && fn in listeners
      ensures unsubscribe.fn == fn
    {
      if fn !in listeners {
        listeners := listeners + [fn];
      }
      unsubscribe := Unsubscriber(fn);
    }

    /** Calling the closure returned by `subscribe`: `this.listeners.delete(fn)`, which
        reports whether `fn` was present. */
    method Unsubscribe(unsubscribe: Unsubscriber) returns (deleted: bool)
      requires Valid()
      modifies this
      ensures Valid()
      ensures listeners == Removed(old(listeners), unsubscribe.fn)
      ensures deleted <==> unsubscribe.fn in old(listeners)
    {
      deleted := unsubscribe.fn in listeners;
      RemovedSpec(listeners, unsubscribe.fn);
      listeners := Removed(listeners, unsubscribe.fn);
    }

    /** One re-entrant call: `subscribe(f)`, or calling the closure that removes `f`. */
    method Perform(op: Reentry)
      requires Valid()
      modifies this
      ensures Valid() && listeners == Apply(old(listeners), op)
    {
      match op {
        case Subscribe(f) =>
          var _ := Subscribe(f);
        case Unsubscribe(f) =>
          var _ := Unsubscribe(Unsubscriber(f));
      }
    }

    /** The subscribe/unsubscribe calls one listener makes on the bus while it runs. */
    method Reenter(ops: seq<Reentry>)
      requires Valid()
      modifies this
      ensures Valid()
      ensures listeners == ApplyAll(old(listeners), ops)
    {
      ghost var start := listeners;
      var j := 0;
      while j < |ops|
        invariant 0 <= j <= |ops|
        invariant Valid()
        invariant listeners == ApplyAll(start, ops[..j])
      {
        Perform(ops[j]);
        ApplyAllSnoc(start, ops[..j], ops[j]);
        assert ops[..j + 1] == ops[..j] + [ops[j]];
        j := j + 1;
      }
      assert ops[..|ops|] == ops;
    }

    /** `emit(payload)`: calls every listener of a snapshot taken at the start, in order,
        each inside its own try/catch. The listener `fn` performs `reaction[fn]` on this bus
        while it runs and then throws when it is in `throwing`; the exception is discarded.
        `calls` is the log of the invocations made. */
    method Emit(payload: Payload, reaction: map<ListenerId, seq<Reentry>>, throwing: set<ListenerId>)
      returns (calls: seq<Call>)
      requires Valid()
      modifies this
      ensures Valid()
      ensures calls == Deliveries(old(listeners), payload, throwing)
      ensures listeners == AfterReentry(old(listeners), old(listeners), reaction)
    {
      var snapshot := listeners;
      calls := [];
      var i := 0;
      while i < |snapshot|
        invariant 0 <= i <= |snapshot|
        invariant Valid()
        invariant calls == Deliveries(snapshot[..i], payload, throwing)
        invariant listeners == AfterReentry(snapshot, snapshot[..i], reaction)
      {
        var fn := snapshot[i];
        // fn(payload): first the bus calls it makes, then possibly a throw, which is caught
        Reenter(OpsOf(reaction, fn));
        var threw := fn in throwing;
        calls := calls + [Call(fn, payload, threw)];
        AfterReentrySnoc(snapshot, snapshot[..i], fn, reaction);
        assert snapshot[..i + 1] == snapshot[..i] + [fn];
        i := i + 1;
      }
      assert snapshot[..i] == snapshot;
    }
  }

  /* ---------------- the process-wide slot ---------------- */

  /** `globalThis`, as far as the bus is concerned. */
  class Global {
    /** `globalThis.__SSE_BUS__`. */
    var sseBus: Bus?

    ghost predicate Valid()
      reads this, sseBus
    {
      sseBus != null ==> sseBus.Valid()
    }

    constructor ()
      ensures Valid() && sseBus == null
    {
      sseBus := null;
    }

    /** `globalThis.__SSE_BUS__ ?? (globalThis.__SSE_BUS__ = new SSEBus())`: a bus is made
        only when the slot is empty; otherwise the one already there is returned. */
    method GetBus() returns (bus: Bus)
      requires Valid()
      modifies this
      ensures Valid() && sseBus == bus
      ensures old(sseBus) != null ==> bus == old(sseBus)
      ensures old(sseBus) == null ==> fresh(bus) && bus.listeners == []
    {
      if sseBus == null {
        bus := new Bus();
        sseBus := bus;
      } else {
        bus := sseBus;
      }
    }
  }

  /** Evaluating the module twice (hot reload, a second bundle) yields one shared bus,
      so subscribers and publishers meet. */
  method ReloadSharesBus(g: Global) returns (first: Bus, second: Bus)
    requires g.Valid()
    modifies g
    ensures first == second && g.sseBus == first && g.Valid()
    ensures old(g.sseBus) != null ==> first == old(g.sseBus)
  {
    first := g.GetBus();
    second := g.GetBus();
  }

  /** A listener that subscribes another one while it is being called: the newcomer is in
      the Set afterwards but is not called by this `emit`. */
  method LateSubscriberMissesEmit(bus: Bus, a: ListenerId, b: ListenerId) returns (calls: seq<Call>)
    requires bus.Valid() && bus.listeners == [a] && a != b
    modifies bus
    ensures calls == [Call(a, Changed, false)]
    ensures bus.listeners == [a, b]
  {
    var reaction := map[a := [Subscribe(b)]];
    calls := bus.Emit(Changed, reaction, {});
    assert [a][1..] == [] && [Subscribe(b)][1..] == [];
    assert ApplyAll([a], OpsOf(reaction, a)) == [a, b];
    assert AfterReentry([a], [a], reaction) == AfterReentry([a, b], [], reaction);
  }

  /** A listener that unsubscribes a later one, and then throws: the later one is still
      called, because it is in the snapshot, and the throw reaches nobody. */
  method RemovedListenerStillCalled(bus: Bus, a: ListenerId, b: ListenerId) returns (calls: seq<Call>)
    requires bus.Valid() && bus.listeners == [a, b] && a != b
    modifies bus
    ensures calls == [Call(a, NoPayload, true), Call(b, NoPayload, false)]
    ensures bus.listeners == [a]
  {
    var reaction := map[a := [Unsubscribe(b)]];
    calls := bus.Emit(NoPayload, reaction, {a});
    assert [a, b][1..] == [b] && [b][1..] == [] && [Unsubscribe(b)][1..] == [];
    assert Removed([a, b], b) == [a] by {
      assert [a, b][1..][1..] == [];
      assert Removed([b], b) == Removed([], b) == [];
    }
    assert ApplyAll([a, b], OpsOf(reaction, a)) == [a];
    assert ApplyAll([a], OpsOf(reaction, b)) == [a];
    assert AfterReentry([a, b], [a, b], reaction) == AfterReentry([a], [b], reaction);
    assert AfterReentry([a], [b], reaction) == AfterReentry([a], [], reaction);
  }
}
