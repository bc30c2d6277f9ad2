/** Round trip: printing events and feeding the bytes in any chunks yields
    exactly those events. */
module SsePrint {
  import opened Base
  import opened Sse
  import opened Text

  /** A line to be written: a field with white space around its value, or any
      other line. */
  datatype Line =
    | DataLine(before: string, value: string, after: string)
    | EventLine(before: string, value: string, after: string)
    | OtherLine(text: string)

  /** A block to be written, and the line ending used. */
  datatype Message = Message(lines: seq<Line>, crlf: bool)
  {
    function Eol(): string { if crlf then "\r\n" else "\n" }

    /** Its data lines joined, under the type its last `event:` line gives. */
    function ToEvent(): Event { Event(TypeOf(lines), Join(Values(lines), "\n")) }
  }

  function Values(lines: seq<Line>): seq<string> {
    if lines == [] then [] else
    (if lines[0].DataLine? then [lines[0].value] else []) + Values(lines[1..])
  }

  function TypeOf(lines: seq<Line>): Option<string> {
    if lines == [] then None else
    var n := |lines| - 1;
    if lines[n].EventLine? then Some(lines[n].value) else TypeOf(lines[..n])
  }

  predicate White(c: char) { c == ' ' || 9 <= c as int <= 13 }

  /** White space within a line. */
  predicate Blank(s: string) {
    forall c :: c in s ==> White(c) && c != '\n' && c != '\r'
  }

  /** On one line and without white space at its ends.  A carriage return
      inside is allowed, which is more than an event writer would let through. */
  predicate Clean(s: string) {
    '\n' !in s && (s != [] ==> !White(s[0]) && !White(s[|s| - 1]))
  }

  /** What every printed line is like. */
  predicate FieldLine(f: string) {
    f != [] && '\n' !in f && f[|f| - 1] != '\r' && f[0] != '\r'
  }

  function Written(l: Line): string {
    match l
    case DataLine(before, value, after) => "data:" + before + value + after
    case EventLine(before, value, after) => "event:" + before + value + after
    case OtherLine(text) => text
  }

  /** Any white space, none included, around a value; other lines (comments,
      `id:`, `retry:`) are not empty and neither data nor event lines. */
  predicate Proper(l: Line) {
    match l
    case DataLine(before, value, after) => Blank(before) && Clean(value) && Blank(after)
    case EventLine(before, value, after) => Blank(before) && Clean(value) && Blank(after)
    case OtherLine(text) => FieldLine(text) && !("data:" <= text) && !("event:" <= text)
  }

  predicate Printable(m: Message) {
    Values(m.lines) != [] && forall l :: l in m.lines ==> Proper(l)
  }

  function Fields(lines: seq<Line>): (r: seq<string>)
    ensures |r| == |lines|
  {
    if lines == [] then [] else [Written(lines[0])] + Fields(lines[1..])
  }

  function Block(m: Message): string { Join(Fields(m.lines), m.Eol()) }

  function Print(m: Message): string { Block(m) + m.Eol() + m.Eol() }

  function PrintAll(ms: seq<Message>): string {
    if ms == [] then "" else Print(ms[0]) + PrintAll(ms[1..])
  }

  function ToEvents(ms: seq<Message>): seq<Event> {
    if ms == [] then [] else [ms[0].ToEvent()] + ToEvents(ms[1..])
  }

  // ── Trimming ────────────────────────────────────────────────────────────

  lemma {:induction false} TrimStartSkips(before: string, rest: string)
    requires Blank(before)
    ensures TrimStart(before + rest) == TrimStart(rest)
  {
    if before == [] {
      assert before + rest == rest;
    } else {
      assert before[0] in before;
      TrimStartSkips(before[1..], rest);
      assert (before + rest)[1..] == before[1..] + rest;
    }
  }

  lemma {:induction false} TrimEndSkips(rest: string, after: string)
    requires Blank(after)
    ensures TrimEnd(rest + after) == TrimEnd(rest)
    decreases |after|
  {
    if after == [] {
      assert rest + after == rest;
    } else {
      var n := |after| - 1;
      assert after[n] in after;
      TrimEndSkips(rest, after[..n]);
      var s := rest + after;
      assert s[|s| - 1] == after[n] && s[..|s| - 1] == rest + after[..n];
    }
  }

  lemma {:induction false} TrimStartExactly(s: string) returns (i: nat)
    ensures i <= |s| && TrimStart(s) == s[i..]
    ensures (forall k :: 0 <= k < i ==> White(s[k])) && (i < |s| ==> !White(s[i]))
    decreases |s|
  {
    i := 0;
    if s != [] && White(s[0]) {
      i := TrimStartExactly(s[1..]);
      forall k | 0 < k < i + 1 ensures White(s[k]) {
        assert s[1..][k - 1] == s[k];
      }
      i := i + 1;
    }
  }

  lemma {:induction false} TrimEndExactly(s: string) returns (j: nat)
    ensures j <= |s| && TrimEnd(s) == s[..j]
    ensures (forall k :: j <= k < |s| ==> White(s[k])) && (j > 0 ==> !White(s[j - 1]))
    decreases |s|
  {
    j := |s|;
    if s != [] && White(s[j - 1]) {
      var t := s[..j - 1];
      j := TrimEndExactly(t);
      assert t[..j] == s[..j] && forall k :: 0 <= k < |t| ==> t[k] == s[k];
    }
  }

  /** Trimming cuts off white space at both ends, all of it and nothing else. */
  lemma TrimExactly(s: string) returns (i: nat, j: nat)
    ensures i <= j <= |s| && Trim(s) == s[i..j]
    ensures (forall k :: 0 <= k < i ==> White(s[k])) && (forall k :: j <= k < |s| ==> White(s[k]))
    ensures i < j ==> !White(s[i]) && !White(s[j - 1])
  {
    i := TrimStartExactly(s);
    j := TrimEndExactly(s[i..]);
    j := j + i;
    assert s[i..][..j - i] == s[i..j];
    forall k | j <= k < |s| ensures White(s[k]) {
      assert s[i..][k - i] == s[k];
    }
  }

  /** White space around a value does not count. */
  lemma TrimAround(before: string, value: string, after: string)
    requires Blank(before) && Clean(value) && Blank(after)
    ensures Trim(before + value + after) == value
  {
    assert before + value + after == before + (value + after);
    TrimStartSkips(before, value + after);
    if value == [] {
      assert value + after == after + "" && after + "" == after;
      TrimStartSkips(after, "");
    } else {
      assert (value + after)[0] == value[0];
      TrimEndSkips(value, after);
    }
  }

  // ── One block ───────────────────────────────────────────────────────────

  predicate IsEol(eol: string) { eol == "\n" || eol == "\r\n" }

  lemma FieldLineOf(name: string, before: string, value: string, after: string)
    requires Blank(before) && Clean(value) && Blank(after) && (name == "data:" || name == "event:")
    ensures FieldLine(name + before + value + after)
  {
    var f := name + before + value + after;
    if after != [] {
      assert f[|f| - 1] == after[|after| - 1] && after[|after| - 1] in after;
    } else if value != [] {
      assert f[|f| - 1] == value[|value| - 1];
    } else if before != [] {
      assert f[|f| - 1] == before[|before| - 1] && before[|before| - 1] in before;
    }
  }

  /** A printed line is a proper one and read as what it is. */
  lemma LineParses(l: Line)
    requires Proper(l)
    ensures FieldLine(Written(l))
    ensures StartsWith(Written(l), DATA) <==> l.DataLine?
    ensures l.DataLine? ==> Trim(Written(l)[|DATA|..]) == l.value
    ensures !l.DataLine? ==> (StartsWith(Written(l), EVENT) <==> l.EventLine?)
    ensures l.EventLine? ==> Trim(Written(l)[|EVENT|..]) == l.value
  {
    var f := Written(l);
    match l
    case DataLine(before, value, after) =>
      FieldLineOf("data:", before, value, after);
      TrimAround(before, value, after);
      assert f[..5] == "data:" && f[5..] == before + value + after;
    case EventLine(before, value, after) =>
      FieldLineOf("event:", before, value, after);
      TrimAround(before, value, after);
      assert f[..6] == "event:" && f[6..] == before + value + after;
      assert f[..5][0] != "data:"[0];
    case OtherLine(text) =>
  }

  lemma {:induction false} FieldsParse(lines: seq<Line>)
    requires forall l :: l in lines ==> Proper(l)
    ensures forall f :: f in Fields(lines) ==> FieldLine(f)
    ensures DataOf(Fields(lines)) == Values(lines)
  {
    if lines != [] {
      assert lines[0] in lines;
      LineParses(lines[0]);
      FieldsParse(lines[1..]);
      assert Fields(lines)[1..] == Fields(lines[1..]);
    }
  }

  lemma {:induction false} TypeFrom(lines: seq<Line>, kind: Option<string>)
    requires forall l :: l in lines ==> Proper(l)
    ensures KindOf(Fields(lines), kind) == if TypeOf(lines).Some? then TypeOf(lines) else kind
  {
    if lines != [] {
      assert lines[0] in lines;
      LineParses(lines[0]);
      var next := if lines[0].EventLine? then Some(lines[0].value) else kind;
      TypeFrom(lines[1..], next);
      assert Fields(lines)[1..] == Fields(lines[1..]);
      FirstType(lines);
    }
  }

  /** The first line decides only if no later one does. */
  lemma {:induction false} FirstType(lines: seq<Line>)
    requires lines != []
    ensures TypeOf(lines) == if TypeOf(lines[1..]).Some? then TypeOf(lines[1..])
                             else if lines[0].EventLine? then Some(lines[0].value) else None
    decreases |lines|
  {
    var n := |lines| - 1;
    if n > 0 && !lines[n].EventLine? {
      FirstType(lines[..n]);
      assert lines[1..][..n - 1] == lines[..n][1..];
    }
    if n == 0 {
      assert lines[..n] == [] && lines[1..] == [];
    }
  }

  lemma FindCharAt(s: string, c: char, i: nat)
    requires i < |s| && s[i] == c && forall k :: 0 <= k < i ==> s[k] != c
    ensures FindChar(s, c) == Some(i)
  {
    assert FindChar(s, c).Some?;
  }

  /** Splitting a block into lines gives back the field lines. */
  lemma {:induction false} LinesOfJoin(fields: seq<string>, eol: string)
    requires fields != [] && IsEol(eol) && forall f :: f in fields ==> FieldLine(f)
    ensures Lines(Join(fields, eol)) == fields
  {
    var f := fields[0];
    assert FieldLine(f);
    if |fields| == 1 {
      assert fields == [f];
    } else {
      var rest := fields[1..];
      assert fields == [f] + rest;
      LinesOfJoin(rest, eol);
      JoinUnfold(f, rest, eol);
      FirstLine(f, eol, Join(rest, eol));
    }
  }

  lemma FirstLine(f: string, eol: string, rest: string)
    requires FieldLine(f) && IsEol(eol)
    ensures Lines(f + eol + rest) == [f] + Lines(rest)
  {
    var s := f + eol + rest;
    var i := |f| + |eol| - 1;
    assert s[..i] == f + eol[..|eol| - 1];
    forall k | 0 <= k < i ensures s[k] != '\n' {
      assert k < |f| ==> s[k] == f[k] && f[k] in f;
    }
    FindCharAt(s, '\n', i);
    assert s[i + 1..] == rest;
    assert StripCr(s[..i]) == f;
  }

  lemma SepShift(a: string, b: string, j: nat)
    ensures SepAt(a + b, |a| + j) == SepAt(b, j)
  {
    var c := a + b;
    assert forall k :: 0 <= k < |b| ==> c[|a| + k] == b[k];
  }

  lemma NoSepInField(f: string, eol: string, rest: string, j: nat)
    requires FieldLine(f) && IsEol(eol) && j < |f|
    ensures !SepAt(f + eol + rest, j)
  {
    var t := f + eol + rest;
    assert t[j] == f[j];
    assert f[j] in f;
    if j + 1 < |f| {
      assert t[j + 1] == f[j + 1] && f[j + 1] in f;
    }
  }

  lemma NoSepInEol(f: string, eol: string, rest: string, j: nat)
    requires IsEol(eol) && |f| <= j < |f| + |eol| && rest != [] && rest[0] != '\n' && rest[0] != '\r'
    ensures !SepAt(f + eol + rest, j)
  {
    var t := f + eol + rest;
    assert t[|f| + |eol|] == rest[0];
    assert forall k :: 0 <= k < |eol| ==> t[|f| + k] == eol[k];
  }

  /** One field line and its end, in front of text that starts a line. */
  lemma NoSepInLine(f: string, eol: string, rest: string, j: nat)
    requires FieldLine(f) && IsEol(eol) && j < |f| + |eol| && rest != [] && rest[0] != '\n' && rest[0] != '\r'
    ensures !SepAt(f + eol + rest, j)
  {
    if j < |f| {
      NoSepInField(f, eol, rest, j);
    } else {
      NoSepInEol(f, eol, rest, j);
    }
  }

  /** The text of a block behind its first line. */
  lemma BlockSplits(f: string, others: seq<string>, eol: string, rest: string)
    requires others != []
    ensures Join([f] + others, eol) + (eol + rest) == f + eol + (Join(others, eol) + (eol + rest))
    ensures |Join([f] + others, eol)| == |f| + |eol| + |Join(others, eol)|
  {
    JoinUnfold(f, others, eol);
  }

  /** No blank line begins inside a printed block. */
  lemma {:induction false} NoSepInBlock(fields: seq<string>, eol: string, rest: string, j: nat)
    requires fields != [] && IsEol(eol) && forall f :: f in fields ==> FieldLine(f)
    requires j < |Join(fields, eol)|
    ensures !SepAt(Join(fields, eol) + (eol + rest), j)
  {
    var f, others := fields[0], fields[1..];
    assert FieldLine(f) && fields == [f] + others;
    if others == [] {
      assert Join(fields, eol) + (eol + rest) == f + eol + rest;
      NoSepInField(f, eol, rest, j);
    } else {
      var tail := Join(others, eol) + (eol + rest);
      BlockSplits(f, others, eol, rest);
      FirstOfJoin(others, eol);
      if j < |f| + |eol| {
        NoSepInLine(f, eol, tail, j);
      } else {
        NoSepInBlock(others, eol, rest, j - |f| - |eol|);
        SepShift(f + eol, tail, j - |f| - |eol|);
      }
    }
  }

  lemma FirstOfJoin(fields: seq<string>, eol: string)
    requires fields != [] && forall f :: f in fields ==> FieldLine(f)
    ensures Join(fields, eol) != [] && Join(fields, eol)[0] != '\n' && Join(fields, eol)[0] != '\r'
  {
    var f := fields[0];
    assert FieldLine(f);
    assert f[0] in f;
  }

  lemma FieldsSome(m: Message)
    requires Printable(m)
    ensures Fields(m.lines) != []
  {
  }

  /** The first blank line of a printed event is the one that ends it. */
  lemma PrintedSep(m: Message, rest: string)
    requires Printable(m)
    ensures SepAt(Print(m) + rest, |Block(m)|) && FirstSep(Print(m) + rest) == Some(|Block(m)|)
  {
    var b, eol := Block(m), m.Eol();
    var t := b + (eol + (eol + rest));
    assert Print(m) + rest == t;
    FieldsParse(m.lines);
    FieldsSome(m);
    forall j: nat | j < |b| ensures !SepAt(t, j) {
      NoSepInBlock(Fields(m.lines), eol, eol + rest, j);
    }
    SepShift(b, eol + (eol + rest), 0);
    assert SepAt(eol + (eol + rest), 0);
    FirstSepIs(t, |b|);
  }

  /** A printed event is extracted whole, and leaves what follows it. */
  lemma ExtractPrinted(m: Message, rest: string)
    requires Printable(m)
    ensures FirstSep(Print(m) + rest) == Some(|Block(m)|)
    ensures Extract(Print(m) + rest) == (Some(m.ToEvent()), rest)
  {
    var b, t := Block(m), Print(m) + rest;
    PrintedSep(m, rest);
    FieldsParse(m.lines);
    FieldsSome(m);
    TypeFrom(m.lines, None);
    LinesOfJoin(Fields(m.lines), m.Eol());
    SepLenAt(t, |b|);
    assert t[..|b|] == b;
    assert t[|b|] == m.Eol()[0];
    assert t[|b| + SepLen(t[|b|..])..] == rest;
  }

  // ── Streams ─────────────────────────────────────────────────────────────

  ghost predicate AllData(blocks: seq<string>) {
    forall k :: 0 <= k < |blocks| ==> ParseBlock(blocks[k]).Some?
  }

  lemma PrintedFirst(m: Message, rest: string)
    requires Printable(m)
    ensures Blocks(Print(m) + rest) == [Block(m)] + Blocks(rest)
    ensures ParseBlock(Block(m)) == Some(m.ToEvent())
  {
    ExtractPrinted(m, rest);
    assert (Print(m) + rest)[..|Block(m)|] == Block(m);
  }

  lemma {:induction false} PrintedBlocks(ms: seq<Message>, tail: string)
    requires forall m :: m in ms ==> Printable(m)
    requires FirstSep(tail).None?
    ensures Events(PrintAll(ms) + tail) == ToEvents(ms)
    ensures AllData(Blocks(PrintAll(ms) + tail))
  {
    if ms == [] {
      assert PrintAll(ms) + tail == tail;
    } else {
      assert ms[0] in ms;
      var rest := PrintAll(ms[1..]) + tail;
      assert PrintAll(ms) + tail == Print(ms[0]) + rest;
      PrintedBlocks(ms[1..], tail);
      PrintedFirst(ms[0], rest);
      assert ([Block(ms[0])] + Blocks(rest))[1..] == Blocks(rest);
    }
  }

  /** The round trip: events printed in either line-ending style and fed in any
      chunks come out exactly, in order, and an unterminated tail does not. */
  lemma RoundTrip(ms: seq<Message>, tail: string, chunks: seq<string>)
    requires forall m :: m in ms ==> Printable(m)
    requires FirstSep(tail).None?
    requires Concat(chunks) == PrintAll(ms) + tail
    ensures Emit("", chunks) == ToEvents(ms)
  {
    PrintedBlocks(ms, tail);
    EmitsAllFresh(chunks);
  }

  const COMMENT := ":\n\n"

  lemma CommentBlock(rest: string)
    ensures Extract(COMMENT + rest) == (None, rest)
  {
    var t := COMMENT + rest;
    FirstSepIs(t, 1);
    SepLenAt(t, 1);
    assert t[..1] == ":" && t[3..] == rest;
    assert FindChar(":", '\n') == None;
    assert Lines(":") == [":"];
    assert DataOf(Lines(":")) == [] by { assert !StartsWith(":", DATA); assert [":"][1..] == []; }
  }

  /** A comment block and an event in one chunk: the event is lost. */
  lemma CommentHidesEvent(m: Message)
    ensures Emit("", [COMMENT + Print(m)]) == []
  {
    OneChunk(COMMENT + Print(m));
    CommentBlock(Print(m));
  }

  /** In two chunks it is emitted. */
  lemma CommentAlone(m: Message)
    requires Printable(m)
    ensures Emit("", [COMMENT, Print(m)]) == [m.ToEvent()]
  {
    var chunks := [COMMENT, Print(m)];
    assert chunks[1..] == [Print(m)];
    assert "" + COMMENT == COMMENT && COMMENT + "" == COMMENT && "" + Print(m) == Print(m);
    CommentBlock("");
    assert Emit("", chunks) == Emit(COMMENT, [Print(m)]);
    assert Emit(COMMENT, [Print(m)]) == Emit(Print(m), []) by { assert [Print(m)][1..] == []; }
    ExtractPrinted(m, "");
    assert Print(m) + "" == Print(m);
    assert Emit(Print(m), []) == [m.ToEvent()] + Emit("", []);
  }
}
