/** The incremental server-sent-event splitter.  Bytes are modelled as ASCII
    characters. */
module Sse {
  import opened Base
  import opened Text

  // ── Separators ──────────────────────────────────────────────────────────

  /** A blank line, in either line-ending style, begins at `i`. */
  predicate SepAt(b: string, i: nat) {
    || (i + 1 < |b| && b[i] == '\n' && b[i + 1] == '\n')
    || (i + 3 < |b| && b[i] == '\r' && b[i + 1] == '\n' && b[i + 2] == '\r' && b[i + 3] == '\n')
  }

  function FirstSepFrom(b: string, i: nat): (r: Option<nat>)
    ensures r.Some? ==> i <= r.value && SepAt(b, r.value) && forall j: nat :: i <= j < r.value ==> !SepAt(b, j)
    ensures r.None? ==> forall j: nat :: i <= j ==> !SepAt(b, j)
    decreases |b| - i
  {
    if i >= |b| then None else if SepAt(b, i) then Some(i) else FirstSepFrom(b, i + 1)
  }

  function FirstSep(b: string): Option<nat> { FirstSepFrom(b, 0) }

  lemma FirstSepIs(b: string, i: nat)
    requires SepAt(b, i) && forall j: nat :: j < i ==> !SepAt(b, j)
    ensures FirstSep(b) == Some(i)
  {
  }

  /** Length of the separator at the start of `b`. */
  function SepLen(b: string): nat {
    if StartsWith(b, "\r\n\r\n") then 4 else if StartsWith(b, "\n\n") then 2 else 0
  }

  lemma SepLenAt(b: string, i: nat)
    requires SepAt(b, i)
    ensures SepLen(b[i..]) == (if b[i] == '\n' then 2 else 4) && i + SepLen(b[i..]) <= |b|
  {
    if b[i] == '\n' {
      assert b[i..][..2] == "\n\n";
      assert b[i..][0] != "\r\n\r\n"[0];
    } else {
      assert b[i..][..4] == "\r\n\r\n";
    }
  }

  lemma SepAtExactly(b: string, i: nat)
    requires i <= |b|
    ensures SepAt(b, i) <==> "\n\n" <= b[i..] || "\r\n\r\n" <= b[i..]
  {
    var c := b[i..];
    assert forall k :: 0 <= k < |c| ==> c[k] == b[i + k];
  }

  /** The first place where the text goes on with two newlines or with two
      carriage returns and newlines. */
  lemma FirstSepExactly(b: string)
    ensures var r := FirstSep(b);
            && (r.Some? ==> r.value <= |b| && ("\n\n" <= b[r.value..] || "\r\n\r\n" <= b[r.value..]))
            && forall j: nat :: j < (if r.Some? then r.value else |b|) ==>
                 !("\n\n" <= b[j..]) && !("\r\n\r\n" <= b[j..])
  {
    var r := FirstSep(b);
    if r.Some? {
      SepAtExactly(b, r.value);
    }
    forall j: nat | j < (if r.Some? then r.value else |b|) ensures !("\n\n" <= b[j..]) && !("\r\n\r\n" <= b[j..]) {
      SepAtExactly(b, j);
    }
  }

  method FindDoubleNewline(b: string) returns (r: Option<nat>)
    ensures r == FirstSep(b)
  {
    var n := if |b| >= 1 then |b| - 1 else 0;
    for i := 0 to n
      invariant forall j: nat :: j < i ==> !SepAt(b, j)
    {
      if b[i] == '\n' && b[i + 1] == '\n' {
        FirstSepIs(b, i);
        return Some(i);
      }
      if i + 3 < |b| && b[i] == '\r' && b[i + 1] == '\n' && b[i + 2] == '\r' && b[i + 3] == '\n' {
        FirstSepIs(b, i);
        return Some(i);
      }
    }
    r := None;
  }

  // ── Blocks ──────────────────────────────────────────────────────────────

  datatype Event = Event(kind: Option<string>, data: string)

  predicate IsSpace(c: char) {
    9 <= c as int <= 13 || c == ' '
  }

  function TrimStart(s: string): string {
    if s != [] && IsSpace(s[0]) then TrimStart(s[1..]) else s
  }

  function TrimEnd(s: string): string {
    if s != [] && IsSpace(s[|s| - 1]) then TrimEnd(s[..|s| - 1]) else s
  }

  function Trim(s: string): string { TrimEnd(TrimStart(s)) }

  function FindChar(s: string, c: char): (r: Option<nat>)
    ensures r.Some? ==> r.value < |s| && s[r.value] == c && forall k :: 0 <= k < r.value ==> s[k] != c
    ensures r.None? ==> c !in s
  {
    if s == [] then None else if s[0] == c then Some(0) else
    match FindChar(s[1..], c)
    case None => None
    case Some(i) => Some(i + 1)
  }

  /** A line that was ended by a newline loses a carriage return before it. */
  function StripCr(s: string): string {
    if s != [] && s[|s| - 1] == '\r' then s[..|s| - 1] else s
  }

  /** `str::lines`. */
  function Lines(s: string): seq<string>
    decreases |s|
  {
    if s == [] then [] else
    match FindChar(s, '\n')
    case None => [s]
    case Some(i) => [StripCr(s[..i])] + Lines(s[i + 1..])
  }

  const DATA := "data:"
  const EVENT := "event:"

  function DataOf(lines: seq<string>): seq<string> {
    if lines == [] then [] else
    if StartsWith(lines[0], DATA) then [Trim(lines[0][|DATA|..])] + DataOf(lines[1..]) else DataOf(lines[1..])
  }

  /** The last `event:` line that is not a `data:` line decides the type. */
  function KindOf(lines: seq<string>, kind: Option<string>): Option<string> {
    if lines == [] then kind else
    if !StartsWith(lines[0], DATA) && StartsWith(lines[0], EVENT)
    then KindOf(lines[1..], Some(Trim(lines[0][|EVENT|..]))) else KindOf(lines[1..], kind)
  }

  /** The event of a block; a block without a data line has none. */
  function ParseBlock(block: string): Option<Event> {
    var data := DataOf(Lines(block));
    if data == [] then None else Some(Event(KindOf(Lines(block), None), Join(data, "\n")))
  }

  method ParseLines(lines: seq<string>) returns (data: seq<string>, kind: Option<string>)
    ensures data == DataOf(lines) && kind == KindOf(lines, None)
  {
    data, kind := [], None;
    for k := 0 to |lines|
      invariant data + DataOf(lines[k..]) == DataOf(lines)
      invariant KindOf(lines[k..], kind) == KindOf(lines, None)
    {
      var line := lines[k];
      assert lines[k..][1..] == lines[k + 1..];
      if StartsWith(line, DATA) {
        data := data + [Trim(line[|DATA|..])];
      } else if StartsWith(line, EVENT) {
        kind := Some(Trim(line[|EVENT|..]));
      }
    }
  }

  // ── Extraction ──────────────────────────────────────────────────────────

  /** What one extraction yields and leaves in the buffer. */
  function Extract(b: string): (r: (Option<Event>, string))
    ensures FirstSep(b).None? ==> r == (None, b)
    ensures FirstSep(b).Some? ==> |r.1| < |b|
  {
    match FirstSep(b)
    case None => (None, b)
    case Some(i) =>
      SepLenAt(b, i);
      (ParseBlock(b[..i]), b[i + SepLen(b[i..])..])
  }

  /** The complete blocks of a text, cut one after the other. */
  function Blocks(t: string): seq<string>
    decreases |t|
  {
    match FirstSep(t)
    case None => []
    case Some(i) => [t[..i]] + Blocks(Extract(t).1)
  }

  function EventsOf(blocks: seq<string>): seq<Event> {
    if blocks == [] then [] else
    (match ParseBlock(blocks[0]) case Some(e) => [e] case None => []) + EventsOf(blocks[1..])
  }

  /** The events of a whole text at once: those of its complete blocks. */
  function Events(t: string): seq<Event> { EventsOf(Blocks(t)) }

  /** A separator found is found again, at the same place and with the same
      length, however the text goes on. */
  lemma ExtendStable(b: string, more: string)
    requires FirstSep(b).Some?
    ensures FirstSep(b + more) == FirstSep(b)
    ensures Extract(b + more) == (Extract(b).0, Extract(b).1 + more)
  {
    var i := FirstSep(b).value;
    var c := b + more;
    assert SepAt(c, i);
    forall j: nat | j < i ensures !SepAt(c, j) {
      assert !SepAt(b, j);
    }
    FirstSepIs(c, i);
    SepLenAt(b, i);
    SepLenAt(c, i);
    var k := i + SepLen(b[i..]);
    assert c[..i] == b[..i];
    assert c[k..] == b[k..] + more;
  }

  // ── Feeding chunks ──────────────────────────────────────────────────────

  function Concat(chunks: seq<string>): string {
    if chunks == [] then "" else chunks[0] + Concat(chunks[1..])
  }

  /** What the forwarder emits with `b` in its buffer, these chunks to come and
      then the end of the stream: whenever an extraction yields nothing it
      polls, and what is in the buffer at the end is discarded. */
  function Emit(b: string, chunks: seq<string>): seq<Event>
    decreases |chunks|, |b|
  {
    var (event, rest) := Extract(b);
    if event.Some? then [event.value] + Emit(rest, chunks)
    else if chunks == [] then []
    else Emit(rest + chunks[0], chunks[1..])
  }

  lemma EventsUnfold(b: string, more: string)
    requires FirstSep(b).Some?
    ensures Blocks(b + more) == [b[..FirstSep(b).value]] + Blocks(Extract(b).1 + more)
    ensures Events(b + more)
         == (match Extract(b).0 case Some(e) => [e] case None => []) + Events(Extract(b).1 + more)
  {
    ExtendStable(b, more);
    var i := FirstSep(b).value;
    assert (b + more)[..i] == b[..i];
    var bs := Blocks(b + more);
    assert bs[1..] == Blocks(Extract(b).1 + more);
  }

  lemma NextChunk(rest: string, chunks: seq<string>)
    requires chunks != []
    ensures rest + chunks[0] + Concat(chunks[1..]) == rest + Concat(chunks)
  {
  }

  lemma EventFirst(e: Event, some: seq<Event>, all: seq<Event>)
    requires some <= all
    ensures [e] + some <= [e] + all
  {
  }

  /** However the bytes are cut into chunks, nothing wrong is emitted: always a
      prefix of the events of the whole text, and never an unterminated tail. */
  lemma {:induction false} EmitsPrefix(b: string, chunks: seq<string>)
    ensures Emit(b, chunks) <= Events(b + Concat(chunks))
    decreases |chunks|, |b|
  {
    var (event, rest) := Extract(b);
    if FirstSep(b).Some? {
      EventsUnfold(b, Concat(chunks));
    }
    if event.Some? {
      EmitsPrefix(rest, chunks);
      EventFirst(event.value, Emit(rest, chunks), Events(rest + Concat(chunks)));
    } else if chunks != [] {
      EmitsPrefix(rest + chunks[0], chunks[1..]);
      NextChunk(rest, chunks);
    }
  }

  /** No block without a data line comes before one with a data line. */
  ghost predicate DataFirst(blocks: seq<string>) {
    forall i, j :: 0 <= i < j < |blocks| && ParseBlock(blocks[i]).None? ==> ParseBlock(blocks[j]).None?
  }

  lemma {:induction false} NoEvents(blocks: seq<string>)
    requires forall i :: 0 <= i < |blocks| ==> ParseBlock(blocks[i]).None?
    ensures EventsOf(blocks) == []
  {
    if blocks != [] {
      NoEvents(blocks[1..]);
    }
  }

  lemma {:induction false} EmitsAll(b: string, chunks: seq<string>)
    requires DataFirst(Blocks(b + Concat(chunks)))
    ensures Emit(b, chunks) == Events(b + Concat(chunks))
    decreases |chunks|, |b|
  {
    var (event, rest) := Extract(b);
    var all := Concat(chunks);
    EmitsPrefix(b, chunks);
    if FirstSep(b).Some? {
      EventsUnfold(b, all);
      var bs := Blocks(b + all);
      assert bs[1..] == Blocks(rest + all);
      if event.Some? {
        EmitsAll(rest, chunks);
      } else {
        assert ParseBlock(bs[0]).None?;
        NoEvents(bs);
      }
    } else if chunks == [] {
      assert b + all == b;
    } else {
      assert b + chunks[0] + Concat(chunks[1..]) == b + all;
      EmitsAll(b + chunks[0], chunks[1..]);
    }
  }

  /** In one chunk, everything after the first block without data is lost. */
  lemma {:induction false} OneChunkStopsAtGap(t: string)
    requires !DataFirst(Blocks(t))
    ensures |Emit(t, [])| < |Events(t)|
    decreases |t|
  {
    var bs := Blocks(t);
    assert t + "" == t;
    EventsUnfold(t, "");
    var (event, rest) := Extract(t);
    assert rest + "" == rest;
    assert bs[1..] == Blocks(rest);
    if event.Some? {
      forall i, j | 0 <= i < j < |bs| && ParseBlock(bs[i]).None? && ParseBlock(bs[j]).Some?
        ensures !DataFirst(bs[1..])
      {
        assert bs[1..][i - 1] == bs[i] && bs[1..][j - 1] == bs[j];
      }
      OneChunkStopsAtGap(rest);
    } else {
      var i, j :| 0 <= i < j < |bs| && ParseBlock(bs[i]).None? && ParseBlock(bs[j]).Some?;
      SomeEvent(bs, j);
    }
  }

  lemma {:induction false} SomeEvent(blocks: seq<string>, j: nat)
    requires j < |blocks| && ParseBlock(blocks[j]).Some?
    ensures EventsOf(blocks) != []
  {
    if j > 0 {
      SomeEvent(blocks[1..], j - 1);
    }
  }

  /** The exact condition: the events depend only on the concatenated bytes,
      and are those of the one-shot split, for every way of cutting the bytes
      into chunks, if and only if no block without a data line (a comment, say)
      comes before one with a data line. */
  lemma ChunkingIrrelevantExactly(t: string)
    ensures (forall chunks :: Concat(chunks) == t ==> Emit("", chunks) == Events(t)) <==> DataFirst(Blocks(t))
  {
    if DataFirst(Blocks(t)) {
      forall chunks | Concat(chunks) == t ensures Emit("", chunks) == Events(t) {
        EmitsAllFresh(chunks);
      }
    } else {
      OneChunkStopsAtGap(t);
      OneChunk(t);
      assert Emit("", [t]) != Events(t);
    }
  }

  lemma EmitsAllFresh(chunks: seq<string>)
    requires DataFirst(Blocks(Concat(chunks)))
    ensures Emit("", chunks) == Events(Concat(chunks))
  {
    assert "" + Concat(chunks) == Concat(chunks);
    EmitsAll("", chunks);
  }

  lemma OneChunk(t: string)
    ensures Concat([t]) == t && Emit("", [t]) == Emit(t, [])
  {
    assert [t][1..] == [];
    assert t + "" == t;
    assert "" + t == t;
  }
}
