/**
  The Server-Sent-Events endpoint of app/api/stream/route.ts, as a state machine over the
  log of frames handed to `controller.enqueue`. Opening the stream writes the retry
  directive and subscribes one listener; every call of that listener writes one `data:`
  frame; every firing of the keep-alive interval writes one comment frame; `_cleanup`
  clears the interval and unsubscribes; `cancel` runs whatever `_cleanup` it finds on
  the object it is called on.

  Real time is not modelled: the 25-second interval is the discrete event `Tick`.
 */
module StreamRoute {
  import opened Wrappers
  import opened Text
  import opened SseBus

  /** The three frames the endpoint ever writes. */
  datatype Frame = RetryFrame | DataFrame(json: string) | KeepAliveFrame

  /** `JSON.stringify({ event: "changed" })`, the only payload the endpoint sends. */
  const ChangedJson: string := "{\"event\":\"changed\"}"

  /** The bytes of a frame, as the source writes them. */
  function Wire(f: Frame): string {
    match f
    case RetryFrame => "retry: 5000\n\n"
    case DataFrame(json) => "data: " + json + "\n\n"
    case KeepAliveFrame => ": keepalive\n\n"
  }

  /** The first line of a frame; every frame is that line followed by an empty line. */
  function HeadLine(f: Frame): string {
    match f
    case RetryFrame => "retry: 5000"
    case DataFrame(json) => "data: " + json
    case KeepAliveFrame => ": keepalive"
  }

  lemma WireIsTwoLines(f: Frame)
    requires f.DataFrame? ==> '\n' !in f.json
    ensures Wire(f) == HeadLine(f) + "\n" + "\n"
    ensures '\n' !in HeadLine(f)
  {
  }

  /* ---------------- how a client reads the stream ---------------- */

  /** A line as the event-stream interpretation of section 9.2.6 of the WHATWG HTML Living
      Standard classifies it: empty (dispatch), a comment (starts with a colon, ignored),
      or a field with a name and a value. */
  datatype Line = Blank | CommentLine | Field(name: string, value: string)

  function ColonAt(line: string): (k: nat)
    ensures k <= |line|
    ensures k < |line| ==> line[k] == ':'
    ensures forall i :: 0 <= i < k ==> line[i] != ':'
  {
    if line == [] || line[0] == ':' then 0 else 1 + ColonAt(line[1..])
  }

  function ParseLine(line: string): Line {
    if line == [] then Blank
    else if line[0] == ':' then CommentLine
    else
      var k := ColonAt(line);
      if k == |line| then Field(line, "")
      else
        var v := line[k + 1..];
        Field(line[..k], if v != [] && v[0] == ' ' then v[1..] else v)
  }

  /** What a client has seen: the reconnection time it was told and the messages dispatched. */
  datatype ClientView = ClientView(retry: Option<nat>, messages: seq<string>, buffer: string)

  /** One line of input to the client's parser. */
  function Feed(view: ClientView, line: string): ClientView {
    match ParseLine(line)
    case Blank =>
      if view.buffer == [] then view
      else view.(messages := view.messages + [view.buffer[..|view.buffer| - 1]], buffer := [])
    case CommentLine => view
    case Field(name, value) =>
      if name == "data" then view.(buffer := view.buffer + value + "\n")
      else if name == "retry" && value != [] && AllDigits(value) then view.(retry := Some(ParseNat(value)))
      else view
  }

  /** A client reading the frames in order, from a fresh parser state. */
  function Read(view: ClientView, frames: seq<Frame>): ClientView
    decreases |frames|
  {
    if frames == [] then view
    else Read(Feed(Feed(view, HeadLine(frames[0])), ""), frames[1..])
  }

  /** The colon the parser splits at is the first one. */
  lemma {:induction false} ColonAtFirst(line: string, k: nat)
    requires k < |line| && line[k] == ':'
    requires forall i :: 0 <= i < k ==> line[i] != ':'
    ensures ColonAt(line) == k
  {
    if k > 0 {
      assert forall i :: 0 <= i < k - 1 ==> line[1..][i] == line[i + 1];
      ColonAtFirst(line[1..], k - 1);
    }
  }

  /** A line with a name, a colon, a space and a value is that field. */
  lemma FieldLine(line: string, k: nat)
    requires 0 < k && k + 1 < |line| && line[k] == ':' && line[k + 1] == ' '
    requires forall i :: 0 <= i < k ==> line[i] != ':'
    ensures ParseLine(line) == Field(line[..k], line[k + 2..])
  {
    ColonAtFirst(line, k);
    assert line[k + 1..][1..] == line[k + 2..];
  }

  lemma RetryLineIsField()
    ensures ParseLine(HeadLine(RetryFrame)) == Field("retry", "5000")
  {
    var line := HeadLine(RetryFrame);
    assert forall i :: 0 <= i < 5 ==> line[i] == "retry"[i];
    FieldLine(line, 5);
    assert line[..5] == "retry" && line[7..] == "5000";
  }

  lemma ReadFiveThousand()
    ensures AllDigits("5000") && ParseNat("5000") == 5000
  {
    assert "5"[..0] == "" && ParseNat("5") == 5;
    assert "50"[..1] == "5" && ParseNat("50") == 50;
    assert "500"[..2] == "50" && ParseNat("500") == 500;
    assert "5000"[..3] == "500";
  }

  /** The retry directive tells the client to wait 5000 ms before reconnecting. */
  lemma RetryFrameSetsReconnect(view: ClientView)
    requires view.buffer == []
    ensures Feed(Feed(view, HeadLine(RetryFrame)), "") == view.(retry := Some(5000))
  {
    RetryLineIsField();
    ReadFiveThousand();
    assert "retry" != "data";
  }

  /** A data frame dispatches exactly its JSON as one message. */
  lemma DataFrameDispatches(view: ClientView, json: string)
    requires view.buffer == []
    ensures Feed(Feed(view, HeadLine(DataFrame(json))), "") == view.(messages := view.messages + [json])
  {
    var line := HeadLine(DataFrame(json));
    assert line[0] != ':' && line[1] != ':' && line[2] != ':' && line[3] != ':';
    assert line[4] == ':';
    assert ColonAt(line) == 4;
    assert line[..4] == "data";
    assert line[5..][1..] == json;
    var buffered := "" + json + "\n";
    assert buffered[..|buffered| - 1] == json;
  }

  /** A keep-alive frame is a comment: it is never read as a `data:` line and leaves the
      client exactly as it was. */
  lemma KeepAliveIsIgnored(view: ClientView)
    ensures ParseLine(HeadLine(KeepAliveFrame)) == CommentLine
    ensures !("data:" <= Wire(KeepAliveFrame))
    ensures view.buffer == [] ==> Feed(Feed(view, HeadLine(KeepAliveFrame)), "") == view
  {
    assert Wire(KeepAliveFrame)[0] == ':';
  }

  /** The number of data frames in a log. */
  function DataCount(frames: seq<Frame>): nat {
    if frames == [] then 0 else (if frames[0].DataFrame? then 1 else 0) + DataCount(frames[1..])
  }

  /** Everything the endpoint can write, read by a client: one message per data frame and
      nothing for the keep-alives, whatever their number and position. */
  lemma {:induction false} ClientSeesOneMessagePerData(view: ClientView, frames: seq<Frame>)
    requires view.buffer == []
    requires forall k :: 0 <= k < |frames| ==> frames[k] != RetryFrame
    ensures Read(view, frames).buffer == []
    ensures |Read(view, frames).messages| == |view.messages| + DataCount(frames)
    ensures Read(view, frames).retry == view.retry
    decreases frames
  {
    if frames != [] {
      var next := Feed(Feed(view, HeadLine(frames[0])), "");
      match frames[0] {
        case DataFrame(json) => DataFrameDispatches(view, json);
        case KeepAliveFrame => KeepAliveIsIgnored(view);
      }
      ClientSeesOneMessagePerData(next, frames[1..]);
    }
  }

  /* ---------------- the endpoint ---------------- */

  class Stream {
    /** The process-wide bus the endpoint subscribes to. */
    const bus: Bus
    /** The listener `() => send({ event: "changed" })` created by `start`. */
    const listener: ListenerId
    /** Everything `controller.enqueue` accepted, in order. */
    var frames: seq<Frame>
    /** The keep-alive interval is installed and not yet cleared. */
    var ticking: bool
    /** The client has cancelled the stream. In the WHATWG Streams Standard,
        ReadableStreamCancel closes the stream before the underlying source's `cancel`
        runs, and from then on `controller.enqueue` throws a TypeError instead of writing. */
    var closed: bool
    /** `(controller as any)._cleanup` has been assigned. */
    var cleanupOnController: bool
    /** The underlying-source object, which `cancel` sees as `this`, has a `_cleanup`. */
    var cleanupOnSource: bool

    ghost predicate Valid()
      reads this, bus
    {
      bus.Valid()
    }

    /** `start(controller)`: the retry directive, one subscription, the keep-alive
        interval and the cleanup closure, stored on the controller. */
    constructor Open(bus: Bus, listener: ListenerId)
      requires bus.Valid() && listener !in bus.listeners
      modifies bus
      ensures Valid() && this.bus == bus && this.listener == listener
      ensures frames == [RetryFrame] && ticking && !closed
      ensures cleanupOnController && !cleanupOnSource
      ensures bus.listeners == old(bus.listeners) + [listener]
    {
      this.bus := bus;
      this.listener := listener;
      frames := [RetryFrame];
      ticking := true;
      closed := false;
      cleanupOnController := true;
      cleanupOnSource := false;
      new;
      var _ := bus.Subscribe(listener);
    }

    /** The subscribed listener: `send({ event: "changed" })`, whatever the bus passed.
        On a closed stream the enqueue throws and nothing is written. */
    method Send(payload: Payload) returns (threw: bool)
      modifies this
      ensures threw == old(closed)
      ensures frames == old(frames) + (if old(closed) then [] else [DataFrame(ChangedJson)])
      ensures ticking == old(ticking) && closed == old(closed)
      ensures cleanupOnController == old(cleanupOnController) && cleanupOnSource == old(cleanupOnSource)
    {
      threw := closed;
      if !closed {
        frames := frames + [DataFrame(ChangedJson)];
      }
    }

    /** One firing of the keep-alive interval; a cleared interval no longer fires, and one
        still installed on a closed stream throws from its enqueue. */
    method Tick() returns (threw: bool)
      modifies this
      ensures threw == (old(ticking) && old(closed))
      ensures frames == old(frames) + (if old(ticking) && !old(closed) then [KeepAliveFrame] else [])
      ensures ticking == old(ticking) && closed == old(closed)
      ensures cleanupOnController == old(cleanupOnController) && cleanupOnSource == old(cleanupOnSource)
    {
      threw := false;
      if ticking {
        if closed {
          threw := true;
        } else {
          frames := frames + [KeepAliveFrame];
        }
      }
    }

    /** `_cleanup()`: `clearInterval(keepAlive)` and then `unsubscribe()`. Safe to repeat. */
    method Cleanup()
      requires Valid()
      modifies this, bus
      ensures Valid() && !ticking
      ensures bus.listeners == Removed(old(bus.listeners), listener)
      ensures frames == old(frames) && closed == old(closed)
      ensures cleanupOnController == old(cleanupOnController) && cleanupOnSource == old(cleanupOnSource)
    {
      ticking := false;
      var _ := bus.Unsubscribe(Unsubscriber(listener));
    }

    /** The client cancels: the stream closes, then `cancel()` runs as written,
        `this._cleanup?.()` with `this` the underlying-source object, on which `start`
        never stored anything. */
    method Cancel()
      requires Valid()
      modifies this, bus
      ensures Valid() && closed && frames == old(frames)
      ensures !old(cleanupOnSource) ==> ticking == old(ticking) && bus.listeners == old(bus.listeners)
      ensures old(cleanupOnSource) ==> !ticking && bus.listeners == Removed(old(bus.listeners), listener)
    {
      closed := true;
      if cleanupOnSource {
        Cleanup();
      }
    }

    /** The client cancels, and `cancel()` as evidently intended reaches the cleanup closure
        that `start` made. */
    method CancelCorrected()
      requires Valid() && cleanupOnController
      modifies this, bus
      ensures Valid() && closed && !ticking
      ensures bus.listeners == Removed(old(bus.listeners), listener)
      ensures frames == old(frames)
    {
      closed := true;
      Cleanup();
    }
  }

  /** The listeners that throw when the bus calls them: the stream's own, once the stream
      is closed. */
  function Throwing(s: Stream): set<ListenerId>
    reads s
  {
    if s.closed then {s.listener} else {}
  }

  /** A bus `emit(payload)` as the endpoint sees it: the bus calls its listener once when
      it is subscribed; that call writes one data frame on an open stream, and throws,
      caught by the bus, on a closed one. */
  method Publish(s: Stream, payload: Payload) returns (calls: seq<Call>)
    requires s.Valid()
    modifies s.bus, s
    ensures s.Valid()
    ensures s.bus.listeners == old(s.bus.listeners)
    ensures calls == Deliveries(old(s.bus.listeners), payload, old(Throwing(s)))
    ensures s.frames == old(s.frames) + (if s.listener in old(s.bus.listeners) && !old(s.closed)
                                         then [DataFrame(ChangedJson)] else [])
    ensures s.ticking == old(s.ticking) && s.closed == old(s.closed)
    ensures s.cleanupOnController == old(s.cleanupOnController) && s.cleanupOnSource == old(s.cleanupOnSource)
  {
    calls := s.bus.Emit(payload, map[], Throwing(s));
    EmitKeepsSet(old(s.bus.listeners), old(s.bus.listeners));
    assert (exists k :: 0 <= k < |calls| && calls[k].listener == s.listener) <==> s.listener in old(s.bus.listeners) by {
      if s.listener in old(s.bus.listeners) {
        var k :| 0 <= k < |old(s.bus.listeners)| && old(s.bus.listeners)[k] == s.listener;
        assert calls[k].listener == s.listener;
      }
    }
    if exists k :: 0 <= k < |calls| && calls[k].listener == s.listener {
      var threw := s.Send(payload);
      assert threw <==> s.listener in old(Throwing(s));
    }
  }

  /** Opening, notifying, one keep-alive and cleanup: the client receives the retry
      directive, one data frame and one comment, later emits and ticks write nothing,
      and the bus is left with exactly the listeners it had before. */
  method OpenNotifyClose(bus: Bus, listener: ListenerId) returns (s: Stream)
    requires bus.Valid() && listener !in bus.listeners
    modifies bus
    ensures bus.Valid() && bus.listeners == old(bus.listeners)
    ensures s.frames == [RetryFrame, DataFrame(ChangedJson), KeepAliveFrame]
  {
    s := new Stream.Open(bus, listener);
    var _ := Publish(s, NoPayload);
    var _ := s.Tick();
    s.Cleanup();
    UnsubscribeUndoesSubscribe(old(bus.listeners), listener);
    var _ := Publish(s, Changed);
    var _ := s.Tick();
  }

  /** As written, a cancelled stream keeps its listener on the bus and its interval
      running: every later emit still calls the listener, whose enqueue throws, and every
      later firing of the interval throws too; nothing more reaches the client. */
  method CancelLeaksListener(bus: Bus, listener: ListenerId)
    returns (s: Stream, calls: seq<Call>, tickThrew: bool)
    requires bus.Valid() && listener !in bus.listeners
    modifies bus
    ensures bus.listeners == old(bus.listeners) + [listener]
    ensures s.ticking && s.closed && s.frames == [RetryFrame]
    ensures calls == Deliveries(old(bus.listeners) + [listener], Changed, {listener})
    ensures |calls| > 0 && calls[|calls| - 1] == Call(listener, Changed, true)
    ensures tickThrew
  {
    s := new Stream.Open(bus, listener);
    s.Cancel();
    calls := Publish(s, Changed);
    tickThrew := s.Tick();
  }

  /** With the corrected cancel, the bus is left as it was before the stream opened: a
      later emit does not call the stream's listener, and no interval fires. */
  method CorrectedCancelReleases(bus: Bus, listener: ListenerId)
    returns (s: Stream, calls: seq<Call>, tickThrew: bool)
    requires bus.Valid() && listener !in bus.listeners
    modifies bus
    ensures bus.listeners == old(bus.listeners)
    ensures !s.ticking && s.closed && s.frames == [RetryFrame]
    ensures calls == Deliveries(old(bus.listeners), Changed, {listener})
    ensures forall k :: 0 <= k < |calls| ==> calls[k].listener != listener && !calls[k].threw
    ensures !tickThrew
  {
    s := new Stream.Open(bus, listener);
    s.CancelCorrected();
    UnsubscribeUndoesSubscribe(old(bus.listeners), listener);
    calls := Publish(s, Changed);
    tickThrew := s.Tick();
  }
}
