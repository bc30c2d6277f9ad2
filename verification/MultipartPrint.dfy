/** What the scanner and the rewriter do with a multipart body as a client
    writes it: which parts carry a field, and what becomes of their contents. */
module MultipartPrint {
  import opened Base
  import opened Text
  import opened Multipart

  // ── Bodies ──────────────────────────────────────────────────────────────

  /** A part to be written: its header lines and its content. */
  datatype Part = Part(headers: seq<string>, content: string)

  function HeaderText(lines: seq<string>): string {
    if lines == [] then "" else "\r\n" + lines[0] + HeaderText(lines[1..])
  }

  function PartText(p: Part): string { HeaderText(p.headers) + "\r\n\r\n" + p.content + "\r\n" }

  /** Each part behind its delimiter, and the closing delimiter. */
  function PartsText(ps: seq<Part>, epilogue: string, boundary: string): string {
    if ps == [] then "--" + boundary + "--" + epilogue
    else "--" + boundary + PartText(ps[0]) + PartsText(ps[1..], epilogue, boundary)
  }

  function Body(preamble: string, ps: seq<Part>, epilogue: string, boundary: string): string {
    preamble + PartsText(ps, epilogue, boundary)
  }

  predicate Lacks(s: string, t: string) { Find(s, t).None? }

  /** Header lines are not empty, the first is no closing delimiter, and neither
      they nor the content contain the delimiter. */
  predicate ProperPart(p: Part, boundary: string) {
    && p.headers != [] && !("--" <= p.headers[0])
    && (forall l :: l in p.headers ==> l != "" && OneLine(l) && Lacks(l, "--" + boundary))
    && Lacks(p.content, "--" + boundary)
  }

  /** The preamble, if any, ends its last line; neither it nor the epilogue
      contains the delimiter. */
  predicate ProperFrame(preamble: string, epilogue: string, boundary: string) {
    && OneLine(boundary) && (preamble == "" || EndsWith(preamble, "\n"))
    && Lacks(preamble, "--" + boundary) && Lacks("--" + epilogue, "--" + boundary)
  }

  /** There is no blank line in them either, so that they do not look like parts. */
  predicate PlainFrame(preamble: string, epilogue: string) {
    Lacks(preamble, "\r\n\r\n") && Lacks("--" + epilogue, "\r\n\r\n")
  }

  // ── Which field a part carries ──────────────────────────────────────────

  /** The field stands in quotes in the headers, right behind a text that ends
      in `name=`. */
  ghost predicate Quotes(pieces: seq<string>, field: string) {
    exists k :: 0 < k < |pieces| - 1 && pieces[k] == field && EndsWith(pieces[k - 1], "name=")
  }

  ghost predicate Carries(p: Part, field: string) {
    Quotes(Split(HeaderText(p.headers), "\""), field)
  }

  /** One character that differs rules an occurrence out. */
  lemma Differs(s: string, p: string, i: nat, j: nat)
    requires i <= j < i + |p| && j < |s| && s[j] != p[j - i]
    ensures !OccursAt(s, p, i)
  {
    if i + |p| <= |s| {
      assert s[i..i + |p|][j - i] == s[j];
    }
  }

  /** Occurrences of the quoted name, seen from the first quotation mark. */
  lemma OccursQuoted(s: string, rest: string, field: string, i: nat)
    requires '"' !in s && '"' !in field
    ensures OccursAt(s + "\"" + rest, Needle(field), i)
            <==> (i + 5 == |s| && EndsWith(s, "name=") && field + "\"" <= rest)
                 || (i > |s| && OccursAt(rest, Needle(field), i - |s| - 1))
  {
    var n, t := Needle(field), s + "\"" + rest;
    assert n == "name=" + ("\"" + field + "\"") && n[5] == '"' && forall k :: 0 <= k < 5 ==> n[k] != '"';
    assert t[|s|] == '"';
    if i > |s| {
      OccursBehind(s + "\"", rest, n, i - |s| - 1);
    } else if i + 5 == |s| {
      AtQuote(s, rest, field, i);
    } else if i + 5 < |s| {
      assert t[i + 5] == s[i + 5] && s[i + 5] in s;
      Differs(t, n, i, i + 5);
    } else {
      Differs(t, n, i, |s|);
    }
  }

  lemma AtQuote(s: string, rest: string, field: string, i: nat)
    requires i + 5 == |s|
    ensures OccursAt(s + "\"" + rest, Needle(field), i) <==> EndsWith(s, "name=") && field + "\"" <= rest
  {
    var n, t, m := Needle(field), s + "\"" + rest, field + "\"";
    assert n == "name=" + ("\"" + m);
    if i + |n| <= |t| {
      assert t[i..i + |n|] == s[i..] + ("\"" + rest[..|m|]);
      assert |s[i..]| == |"name="|;
      if t[i..i + |n|] == n {
        assert s[i..] == n[..5] && rest[..|m|] == n[6..];
      }
    }
  }

  lemma QuotesCons(s: string, others: seq<string>, field: string)
    requires others != []
    ensures Quotes([s] + others, field)
            <==> (EndsWith(s, "name=") && |others| > 1 && others[0] == field) || Quotes(others, field)
  {
    var pieces := [s] + others;
    if Quotes(others, field) {
      var k :| 0 < k < |others| - 1 && others[k] == field && EndsWith(others[k - 1], "name=");
      assert pieces[k + 1] == field && pieces[k] == others[k - 1];
    }
    if Quotes(pieces, field) {
      var k :| 0 < k < |pieces| - 1 && pieces[k] == field && EndsWith(pieces[k - 1], "name=");
      assert k > 1 ==> others[k - 1] == field && others[k - 2] == pieces[k - 1];
    }
    if EndsWith(s, "name=") && |others| > 1 && others[0] == field {
      assert pieces[1] == field && pieces[0] == s;
    }
  }

  lemma {:induction false} QuotesExactly(pieces: seq<string>, field: string)
    requires pieces != [] && '"' !in field && forall x :: x in pieces ==> '"' !in x
    ensures Find(Join(pieces, "\""), Needle(field)).Some? <==> Quotes(pieces, field)
  {
    var n, s, others := Needle(field), pieces[0], pieces[1..];
    assert n[5] == '"';
    if others == [] {
      Absent(s, n, '"');
    } else {
      var rest := Join(others, "\"");
      assert pieces == [s] + others;
      JoinUnfold(s, others, "\"");
      QuotesExactly(others, field);
      FindQuoted(s, rest, field);
      FirstPiece(others, field);
      QuotesCons(s, others, field);
    }
  }

  lemma FindQuoted(s: string, rest: string, field: string)
    requires '"' !in s && '"' !in field
    ensures Find(s + "\"" + rest, Needle(field)).Some?
            <==> (EndsWith(s, "name=") && field + "\"" <= rest) || Find(rest, Needle(field)).Some?
  {
    var t, n := s + "\"" + rest, Needle(field);
    if Find(t, n).Some? {
      OccursQuoted(s, rest, field, Find(t, n).value);
    }
    if Find(rest, n).Some? {
      OccursQuoted(s, rest, field, |s| + 1 + Find(rest, n).value);
    }
    if EndsWith(s, "name=") {
      OccursQuoted(s, rest, field, |s| - 5);
    }
  }

  lemma FirstPiece(pieces: seq<string>, field: string)
    requires pieces != [] && '"' !in field && forall x :: x in pieces ==> '"' !in x
    ensures field + "\"" <= Join(pieces, "\"") <==> |pieces| > 1 && pieces[0] == field
  {
    var s, m, j := pieces[0], field + "\"", Join(pieces, "\"");
    assert m[|field|] == '"';
    if |pieces| == 1 {
      assert |field| < |j| ==> j[|field|] in s;
    } else {
      assert pieces == [s] + pieces[1..];
      JoinUnfold(s, pieces[1..], "\"");
      assert j[|s|] == '"';
      if |field| < |s| {
        assert j[|field|] == s[|field|] && s[|field|] in s;
      } else if |s| < |field| {
        assert m[|s|] == field[|s|] && field[|s|] in field;
      } else {
        assert j[..|s|] == s && m[..|s|] == field && j[..|m|] == s + "\"";
      }
    }
  }

  lemma QuoteFree(s: string, x: string)
    requires x in Split(s, "\"")
    ensures '"' !in x
  {
    var pieces := Split(s, "\"");
    SplitIsParts(s, "\"");
    var k :| 0 <= k < |pieces| && pieces[k] == x;
    PartHasNone(pieces, "\"", k);
    if '"' in x {
      var j :| 0 <= j < |x| && x[j] == '"';
      assert x[j..j + 1] == "\"";
      assert OccursAt(x, "\"", j);
    }
  }

  /** The name is found in a header text exactly if it is quoted there. */
  lemma HeaderNames(headers: string, field: string)
    requires '"' !in field
    ensures Find(headers, Needle(field)).Some? <==> Quotes(Split(headers, "\""), field)
  {
    var pieces := Split(headers, "\"");
    forall x | x in pieces ensures '"' !in x {
      QuoteFree(headers, x);
    }
    JoinSplit(headers, "\"");
    QuotesExactly(pieces, field);
  }

  // ── One part ────────────────────────────────────────────────────────────

  lemma ShiftPast(front: string, tail: string, p: string)
    requires forall i: nat :: i < |front| ==> !OccursAt(front + tail, p, i)
    ensures Find(front + tail, p) == match Find(tail, p) case None => None case Some(k) => Some(|front| + k)
  {
    var s := front + tail;
    forall i: nat ensures OccursAt(s, p, |front| + i) <==> OccursAt(tail, p, i) {
      OccursBehind(front, tail, p, i);
    }
    forall i: nat | i >= |front| ensures OccursAt(s, p, i) <==> OccursAt(tail, p, i - |front|) {
      assert OccursAt(s, p, |front| + (i - |front|)) <==> OccursAt(tail, p, i - |front|);
    }
    if Find(tail, p).Some? {
      FindIs(s, p, |front| + Find(tail, p).value);
    }
  }

  /** The first blank line is the one behind the header lines. */
  lemma {:induction false} HeadersEnd(lines: seq<string>, rest: string)
    requires forall l :: l in lines ==> l != "" && OneLine(l)
    ensures Find(HeaderText(lines) + (BLANK + rest), BLANK) == Some(|HeaderText(lines)|)
  {
    if lines == [] {
      assert "" + (BLANK + rest) == BLANK + rest;
      assert (BLANK + rest)[..4] == BLANK;
      FindIs(BLANK + rest, BLANK, 0);
    } else {
      var l, tail := lines[0], HeaderText(lines[1..]) + (BLANK + rest);
      var front := "\r\n" + l;
      assert l in lines;
      forall x | x in lines[1..] ensures x != "" && OneLine(x) {
        assert x in lines;
      }
      HeadersEnd(lines[1..], rest);
      assert HeaderText(lines) + (BLANK + rest) == front + tail;
      PastLine(l, tail);
    }
  }

  lemma PastLine(l: string, tail: string)
    requires l != "" && OneLine(l)
    ensures Find("\r\n" + l + tail, BLANK) == match Find(tail, BLANK) case None => None case Some(k) => Some(2 + |l| + k)
  {
    var front := "\r\n" + l;
    forall i: nat | i < |front| ensures !OccursAt(front + tail, BLANK, i) {
      LineHasNoBlank(l, tail, i);
    }
    ShiftPast(front, tail, BLANK);
  }

  lemma LineHasNoBlank(l: string, tail: string, i: nat)
    requires l != "" && OneLine(l) && i < 2 + |l|
    ensures !OccursAt("\r\n" + l + tail, BLANK, i)
  {
    var s := "\r\n" + l + tail;
    assert s[2] == l[0] && l[0] in l;
    if i == 0 {
      assert i + 4 <= |s| ==> s[0..4][2] == s[2];
    } else {
      assert i >= 2 ==> s[i] == l[i - 2] && l[i - 2] in l;
      NotAt(s, BLANK, i);
    }
  }

  lemma {:induction false} NoDelimiter(x: string, lines: seq<string>, d: string)
    requires d != "" && OneLine(d) && Lacks(x, d) && forall l :: l in lines ==> Lacks(l, d)
    ensures Lacks(x + HeaderText(lines), d)
    decreases |lines|
  {
    if lines == [] {
      assert x + "" == x;
    } else {
      var y := lines[0] + HeaderText(lines[1..]);
      assert lines[0] in lines;
      NoDelimiter(lines[0], lines[1..], d);
      FindPastLine(y, d);
      FindAcross(x, '\r', "\n" + y, d);
      assert x + HeaderText(lines) == x + ['\r'] + ("\n" + y);
    }
  }

  /** A part's text up to the line end before its content. */
  function Front(p: Part): string { HeaderText(p.headers) + "\r\n\r" }

  lemma PartCuts(p: Part, boundary: string)
    requires OneLine(boundary) && ProperPart(p, boundary)
    ensures CutsAtEnd(PartText(p), "--" + boundary) && Lacks(PartText(p), "--" + boundary)
  {
    var d, h := "--" + boundary, HeaderText(p.headers);
    assert "" + h == h;
    assert d[0] == '-';
    Absent("", d, '-');
    NoDelimiter("", p.headers, d);
    Absent("\n\r", d, '-');
    FindAcross(h, '\r', "\n\r", d);
    assert Front(p) == h + ['\r'] + "\n\r";
    RewrittenCuts(Front(p), d, p.content);
    assert Front(p) + "\n" + (p.content + CRLF) == PartText(p);
    CutsContainNone(PartText(p), d);
  }

  lemma PartHeaders(p: Part, boundary: string, field: string)
    requires ProperPart(p, boundary) && '"' !in field
    ensures Find(PartText(p), BLANK) == Some(|HeaderText(p.headers)|)
    ensures PartText(p)[..|HeaderText(p.headers)|] == HeaderText(p.headers)
    ensures PartText(p)[|HeaderText(p.headers)| + 4..] == p.content + CRLF
    ensures Names(PartText(p), field) <==> Carries(p, field)
  {
    var h := HeaderText(p.headers);
    HeadersEnd(p.headers, p.content + CRLF);
    assert PartText(p) == h + (BLANK + (p.content + CRLF));
    HeaderNames(h, field);
  }

  lemma ReplacesAfter(t: string, h: string, field: string, value: string)
    requires Find(t, BLANK) == Some(|h|) && t[..|h|] == h
    ensures Rewritten(t, field, value) == if Names(t, field) then h + BLANK + value + CRLF else t
  {
    assert t[|h|..|h| + 4] == BLANK;
    assert t[..|h| + 4] == h + BLANK;
  }

  lemma PartRewritten(p: Part, boundary: string, field: string, value: string)
    requires ProperPart(p, boundary) && '"' !in field
    ensures Rewritten(PartText(p), field, value) == PartText(if Carries(p, field) then p.(content := value) else p)
  {
    PartHeaders(p, boundary, field);
    ReplacesAfter(PartText(p), HeaderText(p.headers), field, value);
  }

  lemma ReadsAfter(t: string, h: nat, content: string, field: string)
    requires Find(t, BLANK) == Some(h) && h >= 2 && t[h + 4..] == content + CRLF
    requires StartsWith(t, CRLF) && !BlankFirst(t) && !StartsWith(t[2..], "--")
    ensures Content(t, field) == if Names(t, field) then Some(content) else None
  {
    NamesAfterCrlf(t, field);
    assert t[2..][h - 2 + 4..] == content + CRLF;
    assert (content + CRLF)[|content|..] == CRLF && (content + CRLF)[..|content|] == content;
  }

  lemma PartStarts(p: Part)
    requires p.headers != [] && p.headers[0] != "" && OneLine(p.headers[0])
    ensures |HeaderText(p.headers)| >= 2 && StartsWith(PartText(p), CRLF) && !BlankFirst(PartText(p))
  {
    var t, l := PartText(p), p.headers[0];
    assert t == "\r\n" + (l + HeaderText(p.headers[1..]) + "\r\n\r\n" + p.content + "\r\n");
    assert t[..2] == CRLF && t[2] == l[0] && l[0] in l;
    Differs(t, BLANK, 0, 2);
  }

  lemma PartRead(p: Part, boundary: string, field: string)
    requires ProperPart(p, boundary) && '"' !in field
    ensures Content(PartText(p), field) == if Carries(p, field) then Some(p.content) else None
  {
    assert p.headers[0] in p.headers;
    PartHeaders(p, boundary, field);
    PartStarts(p);
    NotClosing(p);
    ReadsAfter(PartText(p), |HeaderText(p.headers)|, p.content, field);
  }

  lemma NotClosing(p: Part)
    requires p.headers != [] && p.headers[0] != "" && !("--" <= p.headers[0]) && OneLine(p.headers[0])
    ensures !StartsWith(PartText(p)[2..], "--")
  {
    var t, l, rest := PartText(p)[2..], p.headers[0], HeaderText(p.headers[1..]) + "\r\n\r\n" + p.content + "\r\n";
    assert t == l + rest;
    if |l| >= 2 {
      assert t[..2] == l[..2];
    } else {
      assert rest[0] == '\r' && t[..2][1] == rest[0];
    }
  }

  // ── Whole bodies ────────────────────────────────────────────────────────

  function PartTexts(ps: seq<Part>): (r: seq<string>)
    ensures |r| == |ps| && forall k :: 0 <= k < |ps| ==> r[k] == PartText(ps[k])
  {
    if ps == [] then [] else [PartText(ps[0])] + PartTexts(ps[1..])
  }

  lemma Regroup(a: string, b: string, c: string, e: string)
    ensures a + b + (c + e) == a + (b + c + e)
  {
  }

  lemma {:induction false} PartsJoin(ps: seq<Part>, first: string, epilogue: string, boundary: string)
    ensures Join([first] + (PartTexts(ps) + ["--" + epilogue]), "--" + boundary)
         == first + PartsText(ps, epilogue, boundary)
  {
    var d, last := "--" + boundary, ["--" + epilogue];
    if ps == [] {
      assert PartTexts(ps) + last == last;
      JoinUnfold(first, last, d);
      Regroup(first, d, "--", epilogue);
    } else {
      var text, rest := PartText(ps[0]), PartTexts(ps[1..]) + last;
      assert PartTexts(ps) + last == [text] + rest;
      JoinUnfold(first, [text] + rest, d);
      PartsJoin(ps[1..], text, epilogue, boundary);
      Regroup(first, d, text, PartsText(ps[1..], epilogue, boundary));
    }
  }

  /** The body is cut where it was put together. */
  lemma BodyParts(preamble: string, ps: seq<Part>, epilogue: string, boundary: string)
    requires ProperFrame(preamble, epilogue, boundary) && forall p :: p in ps ==> ProperPart(p, boundary)
    ensures Parts(Body(preamble, ps, epilogue, boundary), boundary) == [preamble] + (PartTexts(ps) + ["--" + epilogue])
  {
    var d := "--" + boundary;
    var parts := [preamble] + (PartTexts(ps) + ["--" + epilogue]);
    assert Delimiter(boundary) == d;
    PartsJoin(ps, preamble, epilogue, boundary);
    forall k | 0 <= k < |parts| - 1 ensures CutsAtEnd(parts[k], d) {
      if k == 0 {
        PreambleCuts(preamble, d);
      } else {
        assert parts[k] == PartText(ps[k - 1]) && ps[k - 1] in ps;
        PartCuts(ps[k - 1], boundary);
      }
    }
    ResplitExactly(parts, d);
  }

  lemma PreambleCuts(preamble: string, d: string)
    requires (preamble == "" || EndsWith(preamble, "\n")) && Lacks(preamble, d) && OneLine(d) && d != ""
    ensures CutsAtEnd(preamble, d)
  {
    FindIs(d, d, 0);
    if preamble == "" {
      assert "" + d == d;
    } else {
      var n := |preamble| - 1;
      assert preamble == preamble[..n] + ['\n'] && preamble == preamble[..n] + ['\n'] + "";
      FindAcross(preamble[..n], '\n', "", d);
      FindAcross(preamble[..n], '\n', d, d);
    }
  }

  /** The content of the first part that carries the field. */
  ghost function FirstCarried(ps: seq<Part>, field: string): Option<string> {
    if ps == [] then None else if Carries(ps[0], field) then Some(ps[0].content) else FirstCarried(ps[1..], field)
  }

  /** Every part that carries the field has the new content, all others their own. */
  ghost function PutAll(ps: seq<Part>, field: string, value: string): (r: seq<Part>)
    ensures |r| == |ps|
    ensures forall k :: 0 <= k < |ps| ==> r[k] == if Carries(ps[k], field) then ps[k].(content := value) else ps[k]
  {
    if ps == [] then []
    else [if Carries(ps[0], field) then ps[0].(content := value) else ps[0]] + PutAll(ps[1..], field, value)
  }

  lemma {:induction false} FirstRead(ps: seq<Part>, epilogue: string, boundary: string, field: string)
    requires '"' !in field && forall p :: p in ps ==> ProperPart(p, boundary)
    ensures FirstContent(PartTexts(ps) + ["--" + epilogue], field) == FirstCarried(ps, field)
  {
    var parts := PartTexts(ps) + ["--" + epilogue];
    if ps == [] {
      assert parts == ["--" + epilogue] && parts[1..] == [];
      assert ("--" + epilogue)[..2] == "--" && ("--" + epilogue)[0] != CRLF[0];
    } else {
      assert ps[0] in ps;
      PartRead(ps[0], boundary, field);
      FirstRead(ps[1..], epilogue, boundary, field);
      assert parts[1..] == PartTexts(ps[1..]) + ["--" + epilogue];
    }
  }

  /** The scanner reads, from a body as it is written, the content of the first
      part that carries the field, whole, and nothing if none does, whatever
      stands before the first and after the closing delimiter. */
  lemma ReadsWritten(preamble: string, ps: seq<Part>, epilogue: string, boundary: string, field: string)
    requires ProperFrame(preamble, epilogue, boundary) && forall p :: p in ps ==> ProperPart(p, boundary)
    requires '"' !in field
    ensures ExtractField(Body(preamble, ps, epilogue, boundary), boundary, field) == FirstCarried(ps, field)
  {
    BodyParts(preamble, ps, epilogue, boundary);
    var parts := [preamble] + (PartTexts(ps) + ["--" + epilogue]);
    assert parts[1..] == PartTexts(ps) + ["--" + epilogue];
    FirstRead(ps, epilogue, boundary, field);
  }

  /** The rewriter, which does look there, turns a body without such text into
      the one with exactly the parts that carry the field given the new content. */
  lemma RewritesWritten(preamble: string, ps: seq<Part>, epilogue: string, boundary: string, field: string,
          value: string)
    requires ProperFrame(preamble, epilogue, boundary) && PlainFrame(preamble, epilogue)
    requires '"' !in field && forall p :: p in ps ==> ProperPart(p, boundary)
    ensures Rewrite(Body(preamble, ps, epilogue, boundary), boundary, field, value)
         == Body(preamble, PutAll(ps, field, value), epilogue, boundary)
  {
    BodyParts(preamble, ps, epilogue, boundary);
    var parts := [preamble] + (PartTexts(ps) + ["--" + epilogue]);
    var new_ := PutAll(ps, field, value);
    var after := [preamble] + (PartTexts(new_) + ["--" + epilogue]);
    forall k | 0 <= k < |parts| ensures RewriteAll(parts, field, value)[k] == after[k] {
      if 0 < k < |parts| - 1 {
        assert ps[k - 1] in ps;
        PartRewritten(ps[k - 1], boundary, field, value);
      }
    }
    assert RewriteAll(parts, field, value) == after;
    PartsJoin(new_, preamble, epilogue, boundary);
  }

  // ── Names and file names ────────────────────────────────────────────────

  lemma QuoteCuts(x: string)
    requires '"' !in x
    ensures CutsAtEnd(x, "\"") && Lacks(x, "\"")
  {
    var t := x + "\"";
    forall j: nat | j < |x| ensures !OccursAt(t, "\"", j) {
      assert t[j] == x[j] && x[j] in x;
      NotAt(t, "\"", j);
    }
    FindIs(t, "\"", |x|);
    Absent(x, "\"", '"');
  }

  lemma QuotedPieces(pieces: seq<string>)
    requires pieces != [] && forall x :: x in pieces ==> '"' !in x
    ensures Split(Join(pieces, "\""), "\"") == pieces
  {
    forall k | 0 <= k < |pieces| ensures CutsAtEnd(pieces[k], "\"") && Lacks(pieces[k], "\"") {
      assert pieces[k] in pieces;
      QuoteCuts(pieces[k]);
    }
    ResplitExactly(pieces, "\"");
  }

  const DISPOSITION := "Content-Disposition: form-data; name="

  /** A form field as clients write it. */
  function FormField(name: string, content: string): Part { Part([DISPOSITION + "\"" + name + "\""], content) }

  /** A file upload as clients write it. */
  function Upload(name: string, filename: string, content: string): Part {
    Part([DISPOSITION + "\"" + name + "\"; filename=\"" + filename + "\""], content)
  }

  lemma JoinThree(a: string, b: string, c: string)
    ensures Join([a, b, c], "\"") == a + "\"" + (b + "\"" + c)
  {
    assert [a, b, c] == [a] + [b, c] && [b, c] == [b] + [c];
    JoinUnfold(a, [b, c], "\"");
    JoinUnfold(b, [c], "\"");
  }

  lemma JoinFive(a: string, b: string, c: string, d: string, e: string)
    ensures Join([a, b, c, d, e], "\"") == a + "\"" + (b + "\"" + (c + "\"" + (d + "\"" + e)))
  {
    assert [a, b, c, d, e] == [a] + [b, c, d, e] && [b, c, d, e] == [b] + [c, d, e];
    JoinUnfold(a, [b, c, d, e], "\"");
    JoinUnfold(b, [c, d, e], "\"");
    JoinThree(c, d, e);
  }

  lemma OneHeader(l: string)
    ensures HeaderText([l]) == "\r\n" + l
  {
    assert [l][1..] == [];
  }

  lemma FieldText(name: string, content: string, first: string)
    requires first == "\r\n" + DISPOSITION
    ensures HeaderText(FormField(name, content).headers) == first + "\"" + (name + "\"" + "")
    ensures '"' !in first
  {
    OneHeader(DISPOSITION + "\"" + name + "\"");
  }

  /** A form field carries its own name and no other, not a beginning of it either. */
  lemma FieldCarries(name: string, content: string, field: string)
    requires '"' !in name
    ensures Carries(FormField(name, content), field) <==> name == field
  {
    var first := "\r\n" + DISPOSITION;
    var pieces := [first, name, ""];
    JoinThree(first, name, "");
    FieldText(name, content, first);
    QuotedPieces(pieces);
    assert first[|first| - 5..] == "name=";
    ThreePieces(pieces, field);
  }

  lemma ThreePieces(pieces: seq<string>, field: string)
    requires |pieces| == 3
    ensures Quotes(pieces, field) <==> pieces[1] == field && EndsWith(pieces[0], "name=")
  {
  }

  const FILENAME := "; filename="

  /** An upload carries its name and, against the intention, its file name: the
      search for `name="..."` does not look at what stands before it. */
  lemma UploadCarries(name: string, filename: string, content: string, field: string)
    requires '"' !in name && '"' !in filename && ';' !in field
    ensures Carries(Upload(name, filename, content), field) <==> name == field || filename == field
  {
    var first := "\r\n" + DISPOSITION;
    var pieces := [first, name, FILENAME, filename, ""];
    JoinFive(first, name, FILENAME, filename, "");
    UploadText(name, filename, content, first);
    QuotedPieces(pieces);
    assert first[|first| - 5..] == "name=" && FILENAME[|FILENAME| - 5..] == "name=";
    FivePieces(pieces, field);
    assert FILENAME[0] in FILENAME;
  }

  lemma FivePieces(pieces: seq<string>, field: string)
    requires |pieces| == 5
    ensures Quotes(pieces, field)
            <==> (pieces[1] == field && EndsWith(pieces[0], "name=")) || (pieces[2] == field && EndsWith(pieces[1], "name="))
                 || (pieces[3] == field && EndsWith(pieces[2], "name="))
  {
  }

  lemma UploadText(name: string, filename: string, content: string, first: string)
    requires first == "\r\n" + DISPOSITION
    ensures HeaderText(Upload(name, filename, content).headers)
         == first + "\"" + (name + "\"" + (FILENAME + "\"" + (filename + "\"" + "")))
    ensures '"' !in first && '"' !in FILENAME
  {
    OneHeader(DISPOSITION + "\"" + name + "\"; filename=\"" + filename + "\"");
  }

  /** So a file that a client happens to call like the field is read as the
      field's value, and its content is overwritten by the rewriter. */
  lemma UploadOverwritten(name: string, field: string, content: string, value: string, epilogue: string,
          boundary: string)
    requires '"' !in name && '"' !in field && ';' !in field
    requires ProperFrame("", epilogue, boundary) && PlainFrame("", epilogue)
    requires ProperPart(Upload(name, field, content), boundary)
    ensures var body := Body("", [Upload(name, field, content)], epilogue, boundary);
            && ExtractField(body, boundary, field) == Some(content)
            && Rewrite(body, boundary, field, value) == Body("", [Upload(name, field, value)], epilogue, boundary)
  {
    var ps := [Upload(name, field, content)];
    UploadCarries(name, field, content, field);
    ReadsWritten("", ps, epilogue, boundary, field);
    RewritesWritten("", ps, epilogue, boundary, field, value);
    assert PutAll(ps, field, value) == [Upload(name, field, value)];
  }
}
