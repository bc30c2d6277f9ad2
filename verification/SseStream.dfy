/** The forwarder around the splitter: a poll-driven stream over an inner
    stream of chunks, errors, pauses and an end. */
module SseStream {
  import opened Base
  import opened Sse
  import opened SsePrint
  import opened Text

  /** What one poll of the inner stream reports; `late` tells whether the idle
      deadline has passed by then. */
  datatype Outcome = Chunk(bytes: string) | Failed(message: string) | End | Pending(late: bool)

  datatype Item = Forwarded(event: Event) | StreamError(message: string) | Truncated | IdleTimeout

  datatype Poll = Ready(item: Option<Item>) | NotReady

  /** The forwarder's state, with what the inner stream still has to report. */
  datatype State = State(
    buffer: string,
    open: bool,
    sawDone: bool,
    chunks: seq<string>,     // data kept for the completion record or the debug log
    debug: bool,
    idle: bool,              // an idle timeout is configured
    source: seq<Outcome>)

  const DONE := "[DONE]"

  function Remember(s: State, data: string): State {
    if data == DONE then s.(sawDone := true)
    else if data == "" then s
    else s.(chunks := if s.debug then s.chunks + [data] else [data])
  }

  function SourceWeight(source: seq<Outcome>): nat {
    if source == [] then 0
    else 1 + (if source[0].Chunk? then |source[0].bytes| else 0) + SourceWeight(source[1..])
  }

  function Weight(s: State): nat {
    (if s.open then 1 else 0) + |s.buffer| + SourceWeight(s.source)
  }

  /** One call of `poll_next`. */
  function Polled(s: State): (r: (Poll, State))
    ensures r.0.Ready? && r.0.item.Some? ==> Weight(r.1) < Weight(s)
    ensures r.0.NotReady? && s.source != [] ==> Weight(r.1) < Weight(s)
    decreases |s.source|
  {
    if !s.open then (Ready(None), s) else
    var (event, rest) := Extract(s.buffer);
    ExtractShrinks(s.buffer);
    var g := s.(buffer := rest);
    if event.Some? then (Ready(Some(Forwarded(event.value))), Remember(g, event.value.data))
    else if s.source == [] then (NotReady, g)
    else
      var h := g.(source := s.source[1..]);
      match s.source[0]
      case Chunk(bytes) => Polled(h.(buffer := rest + bytes))
      case Failed(message) => (Ready(Some(StreamError(message))), h.(open := false))
      case End => (Ready(if s.sawDone then None else Some(Truncated)), h.(open := false, buffer := ""))
      case Pending(late) =>
        if s.idle && late then (Ready(Some(IdleTimeout)), h.(open := false)) else (NotReady, h)
  }

  lemma ExtractShrinks(b: string)
    ensures |Extract(b).1| <= |b| && (Extract(b).0.Some? ==> |Extract(b).1| < |b|)
  {
  }

  /** The forwarder polled until it is finished, or its source is. */
  function Drain(s: State): (seq<Item>, State)
    decreases Weight(s)
  {
    var (poll, t) := Polled(s);
    match poll
    case Ready(None) => ([], t)
    case Ready(Some(item)) => var (items, u) := Drain(t); ([item] + items, u)
    case NotReady => if s.source == [] then ([], t) else Drain(t)
  }

  // ── What it forwards in all ─────────────────────────────────────────────

  /** A pause makes the forwarder look at its buffer again, as an empty chunk would. */
  function ChunksOf(source: seq<Outcome>): seq<string> {
    if source == [] then [] else
    [if source[0].Chunk? then source[0].bytes else ""] + ChunksOf(source[1..])
  }

  /** Chunks and pauses within the deadline. */
  predicate Quiet(idle: bool, source: seq<Outcome>) {
    forall o :: o in source ==> o.Chunk? || (o.Pending? && !(idle && o.late))
  }

  predicate Final(idle: bool, o: Outcome) {
    o.End? || o.Failed? || (o.Pending? && idle && o.late)
  }

  function ForwardAll(events: seq<Event>): seq<Item> {
    if events == [] then [] else [Forwarded(events[0])] + ForwardAll(events[1..])
  }

  predicate DoneIn(events: seq<Event>) {
    exists e :: e in events && e.data == "[DONE]"
  }

  /** The one error item a stream can end with. */
  function Ending(last: Outcome, done: bool): seq<Item> {
    match last
    case End => if done then [] else [Truncated]
    case Failed(message) => [StreamError(message)]
    case _ => [IdleTimeout]
  }

  function RememberAll(s: State, events: seq<Event>): State
    decreases events
  {
    if events == [] then s else RememberAll(Remember(s, events[0].data), events[1..])
  }

  lemma {:induction false} RememberedDone(s: State, events: seq<Event>)
    ensures RememberAll(s, events).sawDone <==> s.sawDone || DoneIn(events)
    decreases events
  {
    if events != [] {
      RememberedDone(Remember(s, events[0].data), events[1..]);
      assert events == [events[0]] + events[1..];
    }
  }

  lemma {:induction false} RememberFrame(s: State, t: State, events: seq<Event>)
    requires t.sawDone == s.sawDone && t.chunks == s.chunks && t.debug == s.debug
    ensures var u, v := RememberAll(s, events), RememberAll(t, events); u.sawDone == v.sawDone && u.chunks == v.chunks
    decreases events
  {
    if events != [] {
      RememberFrame(Remember(s, events[0].data), Remember(t, events[0].data), events[1..]);
    }
  }

  /** A chunk or a pause that yields no event only changes the buffer. */
  lemma DrainQuietly(s: State)
    requires s.open && |s.source| >= 2 && Extract(s.buffer).0.None?
    requires s.source[0].Chunk? || (s.source[0].Pending? && !(s.idle && s.source[0].late))
    ensures Drain(s) == Drain(AfterPause(s))
  {
    if s.source[0].Pending? {
      assert Extract(s.buffer).1 + "" == Extract(s.buffer).1;
    }
  }

  /** Draining `s` forwards `events`, each once, then at most one error, and
      leaves the stream closed with the events remembered. */
  ghost predicate Drains(s: State, events: seq<Event>, last: Outcome) {
    var (items, t) := Drain(s);
    var r := RememberAll(s, events);
    && items == ForwardAll(events) + Ending(last, r.sawDone)
    && !t.open && t.sawDone == r.sawDone && t.chunks == r.chunks
  }

  /** Whatever the buffer holds and however chunks and pauses alternate, the
      items are the events `Emit` describes, each forwarded once, and then at
      most one error: none exactly if the stream ended after a `[DONE]`. */
  lemma {:induction false} DrainEmits(s: State, source: seq<Outcome>, last: Outcome)
    requires s.open && s.source == source + [last] && Quiet(s.idle, source) && Final(s.idle, last)
    ensures Drains(s, Emit(s.buffer, ChunksOf(source)), last)
    decreases Weight(s)
  {
    ExtractShrinks(s.buffer);
    if Extract(s.buffer).0.Some? {
      DrainEmits(AfterEvent(s), source, last);
      DrainEvent(s, source, last);
    } else if source == [] {
    } else {
      assert source[0] in source;
      assert s.source[1..] == source[1..] + [last];
      DrainEmits(AfterPause(s), source[1..], last);
      DrainPause(s, source, last);
    }
  }

  function AfterEvent(s: State): State
    requires Extract(s.buffer).0.Some?
  {
    Remember(s.(buffer := Extract(s.buffer).1), Extract(s.buffer).0.value.data)
  }

  function AfterPause(s: State): State
    requires s.source != []
  {
    s.(buffer := Extract(s.buffer).1 + ChunksOf(s.source)[0], source := s.source[1..])
  }

  lemma DrainEvent(s: State, source: seq<Outcome>, last: Outcome)
    requires s.open && Extract(s.buffer).0.Some?
    requires Drains(AfterEvent(s), Emit(Extract(s.buffer).1, ChunksOf(source)), last)
    ensures Drains(s, Emit(s.buffer, ChunksOf(source)), last)
  {
    var e, rest := Extract(s.buffer).0.value, Extract(s.buffer).1;
    var t := AfterEvent(s);
    var events := Emit(rest, ChunksOf(source));
    assert ([e] + events)[1..] == events;
    RememberFrame(Remember(s, e.data), t, events);
    assert Drain(s) == ([Forwarded(e)] + Drain(t).0, Drain(t).1);
    assert ForwardAll([e] + events) == [Forwarded(e)] + ForwardAll(events);
  }

  lemma DrainPause(s: State, source: seq<Outcome>, last: Outcome)
    requires s.open && s.source == source + [last] && source != [] && Extract(s.buffer).0.None?
    requires source[0].Chunk? || (source[0].Pending? && !(s.idle && source[0].late))
    requires Drains(AfterPause(s), Emit(AfterPause(s).buffer, ChunksOf(source[1..])), last)
    ensures Drains(s, Emit(s.buffer, ChunksOf(source)), last)
  {
    DrainQuietly(s);
    var chunks := ChunksOf(source);
    assert chunks[1..] == ChunksOf(source[1..]) && ChunksOf(s.source)[0] == chunks[0];
    RememberFrame(s, AfterPause(s), Emit(s.buffer, chunks));
  }

  // ── The stream as a whole ───────────────────────────────────────────────

  function Opened(debug: bool, idle: bool, source: seq<Outcome>): State {
    State("", true, false, [], debug, idle, source)
  }

  /** A backend that prints well-formed events, delivered in any chunks with
      any pauses, reaches the client exactly, followed by nothing if one of
      them was `[DONE]` and by the truncation error if none was; an
      unterminated tail is never forwarded. */
  lemma ForwardsStream(debug: bool, idle: bool, source: seq<Outcome>, ms: seq<Message>, tail: string)
    requires Quiet(idle, source) && Concat(ChunksOf(source)) == PrintAll(ms) + tail
    requires (forall m :: m in ms ==> Printable(m)) && FirstSep(tail).None?
    ensures var (items, t) := Drain(Opened(debug, idle, source + [End]));
            && items == ForwardAll(ToEvents(ms)) + (if DoneIn(ToEvents(ms)) then [] else [Truncated])
            && (t.sawDone <==> DoneIn(ToEvents(ms)))
  {
    var s := Opened(debug, idle, source + [End]);
    RoundTrip(ms, tail, ChunksOf(source));
    DrainEmits(s, source, End);
    RememberedDone(s, ToEvents(ms));
  }

  function Payloads(events: seq<Event>): seq<string> {
    if events == [] then [] else
    (if events[0].data == "[DONE]" || events[0].data == "" then [] else [events[0].data]) + Payloads(events[1..])
  }

  /** What is kept: all payloads for the debug log, otherwise the last one. */
  lemma {:induction false} KeepsPayloads(s: State, events: seq<Event>)
    ensures var r := RememberAll(s, events).chunks;
            var all := Payloads(events);
            if s.debug then r == s.chunks + all else r == if all == [] then s.chunks else [all[|all| - 1]]
    decreases events
  {
    if events != [] {
      KeepsPayloads(Remember(s, events[0].data), events[1..]);
    }
  }

  class SseForwarder {
    var buffer: string
    var inner: Option<seq<Outcome>>      // the inner stream, by what it will report
    var sawDone: bool
    var chunks: seq<string>
    const debug: bool
    const idleTimeout: bool

    ghost function View(rest: seq<Outcome>): State
      reads this
    {
      State(buffer, inner.Some?, sawDone, chunks, debug, idleTimeout, if inner.Some? then inner.value else rest)
    }

    constructor (source: seq<Outcome>, debug: bool, idleTimeout: bool)
      ensures View([]) == Opened(debug, idleTimeout, source)
    {
      buffer, inner, sawDone, chunks := "", Some(source), false, [];
      this.debug, this.idleTimeout := debug, idleTimeout;
    }

    /** Drains one complete block off the buffer. */
    method ExtractSseEvent() returns (event: Option<Event>)
      modifies this`buffer
      ensures (event, buffer) == Extract(old(buffer))
    {
      var at := FindDoubleNewline(buffer);
      if at.None? {
        return None;
      }
      SepLenAt(buffer, at.value);
      var block := buffer[..at.value];
      buffer := buffer[at.value..];
      buffer := buffer[SepLen(buffer)..];
      var data, kind := ParseLines(Lines(block));
      event := if data == [] then None else Some(Event(kind, Join(data, "\n")));
    }

    method Note(data: string)
      modifies this`sawDone, this`chunks
      ensures forall rest :: View(rest) == Remember(old(View(rest)), data)
    {
      if data == DONE {
        sawDone := true;
      } else if data != "" {
        if !debug {
          chunks := [];
        }
        chunks := chunks + [data];
      }
    }

    /** `poll_next`: forward an event if the buffer has one, else poll the
        inner stream; once it is gone, the stream is finished. */
    method PollNext() returns (poll: Poll)
      modifies this
      ensures poll == Polled(old(View([]))).0
      ensures var t := Polled(old(View([]))).1; View(t.source) == t
    {
      if inner.None? {
        return Ready(None);
      }
      while true
        invariant inner.Some?
        invariant Polled(View([])) == Polled(old(View([])))
        decreases |inner.value|
      {
        ghost var s := View([]);
        var event := ExtractSseEvent();
        if event.Some? {
          Note(event.value.data);
          return Ready(Some(Forwarded(event.value)));
        }
        if inner.value == [] {
          return NotReady;
        }
        var outcome := inner.value[0];
        inner := Some(inner.value[1..]);
        match outcome {
          case Chunk(bytes) =>
            buffer := buffer + bytes;
          case Failed(message) =>
            inner := None;
            return Ready(Some(StreamError(message)));
          case End =>
            inner := None;
            if buffer != "" {
              buffer := "";
            }
            return Ready(if sawDone then None else Some(Truncated));
          case Pending(late) =>
            if idleTimeout && late {
              inner := None;
              return Ready(Some(IdleTimeout));
            }
            return NotReady;
        }
      }
    }
  }
}
