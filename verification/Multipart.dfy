/** The multipart field scanner and rewriter: rewriting is split, map, join. */
module Multipart {
  import opened Base
  import opened Text

  const BLANK := "\r\n\r\n"
  const CRLF := "\r\n"

  function Needle(field: string): string { "name=\"" + field + "\"" }

  function Delimiter(boundary: string): string { "--" + boundary }

  // ── One part ────────────────────────────────────────────────────────────

  /** The header block of the part ends, and names the field before that. */
  predicate Names(part: string, field: string) {
    var h := Find(part, BLANK);
    h.Some? && Find(part[..h.value], Needle(field)).Some?
  }

  /** The part with its content replaced, if it names the field. */
  function Rewritten(part: string, field: string, value: string): string {
    if Names(part, field) then part[..Find(part, BLANK).value + 4] + value + CRLF else part
  }

  function AfterCrlf(part: string): string {
    if StartsWith(part, CRLF) then part[2..] else part
  }

  function BeforeCrlf(content: string): string {
    if EndsWith(content, CRLF) then content[..|content| - 2] else content
  }

  /** What the scanner takes from a part, if anything. */
  function Content(part: string, field: string): Option<string> {
    var p := AfterCrlf(part);
    if StartsWith(p, "--") || !Names(p, field) then None else
    Some(BeforeCrlf(p[Find(p, BLANK).value + 4..]))
  }

  // ── Whole bodies ────────────────────────────────────────────────────────

  function RewriteAll(parts: seq<string>, field: string, value: string): (r: seq<string>)
    ensures |r| == |parts| && forall k :: 0 <= k < |parts| ==> r[k] == Rewritten(parts[k], field, value)
  {
    if parts == [] then [] else [Rewritten(parts[0], field, value)] + RewriteAll(parts[1..], field, value)
  }

  function Parts(body: string, boundary: string): (r: seq<string>)
    ensures r != []
  {
    Split(body, Delimiter(boundary))
  }

  function Rewrite(body: string, boundary: string, field: string, value: string): string {
    Join(RewriteAll(Parts(body, boundary), field, value), Delimiter(boundary))
  }

  function FirstContent(parts: seq<string>, field: string): Option<string> {
    if parts == [] then None
    else if Content(parts[0], field).Some? then Content(parts[0], field)
    else FirstContent(parts[1..], field)
  }

  /** The scanner: the preamble is skipped, the first part with the field wins. */
  function ExtractField(body: string, boundary: string, field: string): Option<string> {
    FirstContent(Parts(body, boundary)[1..], field)
  }

  // ── The loops ───────────────────────────────────────────────────────────

  /** Where the header block ends, if it ends and names the field. */
  method NamedHeaders(part: string, field: string) returns (end: Option<nat>)
    ensures end == if Names(part, field) then Find(part, BLANK) else None
  {
    end := FindSubslice(part, BLANK);
    if end.Some? {
      var named := FindSubslice(part[..end.value], Needle(field));
      if named.None? {
        end := None;
      }
    }
  }

  /** The text value of one part, if it carries the field. */
  method PartContent(whole: string, field: string) returns (r: Option<string>)
    ensures r == Content(whole, field)
  {
    var part := AfterCrlf(whole);
    if StartsWith(part, "--") {
      return None;
    }
    var headerEnd := NamedHeaders(part, field);
    if headerEnd.None? {
      return None;
    }
    r := Some(BeforeCrlf(part[headerEnd.value + 4..]));
  }

  method ExtractMultipartField(body: string, boundary: string, field: string) returns (r: Option<string>)
    ensures r == ExtractField(body, boundary, field)
  {
    var parts := Parts(body, boundary)[1..];
    for k := 0 to |parts|
      invariant FirstContent(parts[k..], field) == FirstContent(parts, field)
    {
      assert parts[k..][1..] == parts[k + 1..];
      r := PartContent(parts[k], field);
      if r.Some? {
        return;
      }
    }
    r := None;
  }

  /** The output for one segment. */
  method RewriteSegment(segment: string, field: string, value: string) returns (out: string)
    ensures out == Rewritten(segment, field, value)
  {
    var headerEnd := NamedHeaders(segment, field);
    if headerEnd.Some? {
      return segment[..headerEnd.value + 4] + value + CRLF;
    }
    out := segment;
  }

  method RewriteMultipartField(body: string, boundary: string, field: string, value: string) returns (out: string)
    ensures out == Rewrite(body, boundary, field, value)
  {
    var delimiter := Delimiter(boundary);
    var rest, first := body, true;
    out := "";
    ghost var whole := RewriteFrom(body, delimiter, field, value);
    ghost var left := whole;
    while true
      invariant left == RewriteFrom(rest, delimiter, field, value)
      invariant first ==> whole == out + left
      invariant !first ==> whole == out + delimiter + left
      decreases |rest|, first
    {
      if !first {
        out := out + delimiter;
      }
      first := false;
      ghost var here := left;
      assert whole == out + here;
      var pos := FindSubslice(rest, delimiter);
      if pos.None? {
        var segment := RewriteSegment(rest, field, value);
        out := out + segment;
        break;
      }
      var segment := RewriteSegment(rest[..pos.value], field, value);
      PeelPart(rest, delimiter, field, value, pos.value);
      rest := rest[pos.value + |delimiter|..];
      left := RewriteFrom(rest, delimiter, field, value);
      NextRound(whole, out, here, segment, delimiter, left);
      out := out + segment;
    }
  }

  lemma NextRound(whole: string, out: string, here: string, segment: string, delimiter: string, left: string)
    requires whole == out + here && here == segment + delimiter + left
    ensures whole == out + segment + delimiter + left
  {
  }

  function RewriteFrom(rest: string, delimiter: string, field: string, value: string): string
    requires delimiter != []
  {
    Join(RewriteAll(Split(rest, delimiter), field, value), delimiter)
  }

  /** The first part and the rest of a rewritten body. */
  lemma PeelPart(rest: string, delimiter: string, field: string, value: string, p: nat)
    requires delimiter != [] && Find(rest, delimiter) == Some(p)
    ensures RewriteFrom(rest, delimiter, field, value)
         == Rewritten(rest[..p], field, value) + delimiter + RewriteFrom(rest[p + |delimiter|..], delimiter, field, value)
  {
    var parts := Split(rest, delimiter);
    var others := Split(rest[p + |delimiter|..], delimiter);
    assert parts == [rest[..p]] + others && parts[1..] == others;
    JoinUnfold(Rewritten(rest[..p], field, value), RewriteAll(others, field, value), delimiter);
  }

  // ── What rewriting keeps ────────────────────────────────────────────────

  /** No part names the field: the body is returned byte for byte. */
  lemma UnchangedWithoutField(body: string, boundary: string, field: string, value: string)
    requires forall part :: part in Parts(body, boundary) ==> !Names(part, field)
    ensures Rewrite(body, boundary, field, value) == body
  {
    var parts := Parts(body, boundary);
    assert RewriteAll(parts, field, value) == parts;
    JoinSplit(body, Delimiter(boundary));
  }

  /** A boundary travels in a header line, so it contains no line break. */
  predicate OneLine(boundary: string) {
    '\r' !in boundary && '\n' !in boundary
  }

  lemma FindPastLine(after: string, d: string)
    requires OneLine(d) && d != []
    ensures Find("\n" + after, d) == match Find(after, d) case None => None case Some(k) => Some(1 + k)
  {
    FindAcross("", '\n', after, d);
    assert "" + ['\n'] + after == "\n" + after;
    assert Find("", d).None?;
  }

  lemma FindPastValue(value: string, after: string, d: string)
    requires OneLine(d) && d != []
    ensures Find(value + CRLF + after, d) ==
              if Find(value, d).Some? then Find(value, d)
              else match Find(after, d) case None => None case Some(k) => Some(|value| + 2 + k)
  {
    FindAcross(value, '\r', "\n" + after, d);
    FindPastLine(after, d);
    assert value + ['\r'] + ("\n" + after) == value + CRLF + after;
  }

  /** The value with its line end, between text that ends a line and more text. */
  lemma FindAroundValue(front: string, value: string, after: string, d: string)
    requires OneLine(d) && d != [] && Find(front, d).None?
    ensures Find(front + "\n" + (value + CRLF + after), d) ==
              if Find(value, d).Some? then Some(|front| + 1 + Find(value, d).value)
              else match Find(after, d) case None => None case Some(k) => Some(|front| + 1 + |value| + 2 + k)
  {
    FindAcross(front, '\n', value + CRLF + after, d);
    FindPastValue(value, after, d);
  }

  /** A rewritten part is what precedes the blank line, a line break, the value
      and a line break. */
  lemma RewrittenIs(part: string, d: string, field: string, value: string) returns (front: string)
    requires Names(part, field) && Find(part, d).None? && OneLine(d) && d != []
    ensures Rewritten(part, field, value) == front + "\n" + (value + CRLF) && Find(front, d).None?
  {
    var h := Find(part, BLANK).value + 4;
    front := part[..h - 1];
    assert part[h - 4..h] == BLANK;
    assert part == front + "\n" + part[h..];
    FindAcross(front, '\n', part[h..], d);
  }

  lemma RewrittenFinds(front: string, d: string, value: string)
    requires Find(front, d).None? && OneLine(d) && d != []
    ensures Find(front + "\n" + (value + CRLF), d).None? <==> Find(value, d).None?
  {
    assert value + CRLF + "" == value + CRLF;
    FindAroundValue(front, value, "", d);
  }

  lemma RewrittenCuts(front: string, d: string, value: string)
    requires Find(front, d).None? && OneLine(d) && d != [] && Find(value, d).None?
    ensures CutsAtEnd(front + "\n" + (value + CRLF), d)
  {
    assert front + "\n" + (value + CRLF) + d == front + "\n" + (value + CRLF + d);
    FindAroundValue(front, value, d, d);
    FindIs(d, d, 0);
  }

  /** A rewritten part contains the delimiter only if the value does. */
  lemma RewrittenContains(part: string, d: string, field: string, value: string)
    requires Names(part, field) && Find(part, d).None? && OneLine(d) && d != []
    ensures Find(Rewritten(part, field, value), d).None? <==> Find(value, d).None?
    ensures Find(value, d).None? ==> CutsAtEnd(Rewritten(part, field, value), d)
  {
    var front := RewrittenIs(part, d, field, value);
    RewrittenFinds(front, d, value);
    if Find(value, d).None? {
      RewrittenCuts(front, d, value);
    }
  }

  /** The rewritten parts are the parts of the rewritten body if and only if no
      part names the field or the value does not contain the delimiter. */
  lemma ResplitsExactly(body: string, boundary: string, field: string, value: string)
    requires OneLine(boundary)
    ensures Parts(Rewrite(body, boundary, field, value), boundary) == RewriteAll(Parts(body, boundary), field, value)
            <==> (forall part :: part in Parts(body, boundary) ==> !Names(part, field))
                 || Find(value, Delimiter(boundary)).None?
  {
    var d := Delimiter(boundary);
    var parts := Parts(body, boundary);
    SplitIsParts(body, d);
    ResplitExactly(RewriteAll(parts, field, value), d);
    StaysSplitExactly(parts, d, field, value);
  }

  lemma StaysSplitExactly(parts: seq<string>, d: string, field: string, value: string)
    requires d != [] && OneLine(d) && SplitParts(parts, d)
    ensures SplitParts(RewriteAll(parts, field, value), d)
            <==> (forall part :: part in parts ==> !Names(part, field)) || Find(value, d).None?
  {
    var after := RewriteAll(parts, field, value);
    if Find(value, d).None? {
      KeepsCuts(parts, d, field, value);
    } else if forall part :: part in parts ==> !Names(part, field) {
      assert after == parts;
    } else {
      var k :| 0 <= k < |parts| && Names(parts[k], field);
      PartHasNone(parts, d, k);
      RewrittenContains(parts[k], d, field, value);
      if SplitParts(after, d) {
        PartHasNone(after, d, k);
        assert false;
      }
    }
  }

  lemma PartHasNone(parts: seq<string>, d: string, k: nat)
    requires d != [] && SplitParts(parts, d) && k < |parts|
    ensures Find(parts[k], d).None?
  {
    if k < |parts| - 1 {
      CutsContainNone(parts[k], d);
    }
  }

  lemma KeepsCuts(parts: seq<string>, d: string, field: string, value: string)
    requires d != [] && OneLine(d) && SplitParts(parts, d) && Find(value, d).None?
    ensures SplitParts(RewriteAll(parts, field, value), d)
  {
    var after := RewriteAll(parts, field, value);
    forall k | 0 <= k < |after| ensures k < |after| - 1 ==> CutsAtEnd(after[k], d)
                                ensures k == |after| - 1 ==> Find(after[k], d).None?
    {
      PartHasNone(parts, d, k);
      if Names(parts[k], field) {
        RewrittenContains(parts[k], d, field, value);
      }
    }
  }

  // ── Reading back ────────────────────────────────────────────────────────

  /** A part without header lines: its blank line comes first. */
  predicate BlankFirst(part: string) { StartsWith(part, BLANK) }

  /** The line break before the headers makes no difference to what a part names. */
  lemma NamesAfterCrlf(part: string, field: string)
    requires StartsWith(part, CRLF) && !BlankFirst(part)
    ensures Names(part[2..], field) <==> Names(part, field)
    ensures Find(part, BLANK) == (match Find(part[2..], BLANK) case None => None case Some(h) => Some(h + 2))
  {
    assert part[..2] == CRLF && part[0] == '\r' && part[1] == '\n';
    NotAt(part, BLANK, 1);
    ShiftFind(part, BLANK);
    var h := Find(part[2..], BLANK);
    if h.Some? {
      var headers := part[..h.value + 2];
      assert headers[2..] == part[2..][..h.value];
      NotAt(headers, Needle(field), 0);
      NotAt(headers, Needle(field), 1);
      ShiftFind(headers, Needle(field));
    }
  }

  lemma NotAt(s: string, p: string, i: nat)
    requires p != [] && i < |s| && s[i] != p[0]
    ensures !OccursAt(s, p, i)
  {
    assert i + |p| <= |s| ==> s[i..i + |p|][0] == s[i];
  }

  /** An occurrence that does not start in the first two characters. */
  lemma ShiftFind(s: string, p: string)
    requires |s| >= 2 && !OccursAt(s, p, 0) && !OccursAt(s, p, 1)
    ensures Find(s, p) == (match Find(s[2..], p) case None => None case Some(k) => Some(k + 2))
  {
    assert s == s[..2] + s[2..];
    forall i: nat ensures OccursAt(s, p, 2 + i) <==> OccursAt(s[2..], p, i) {
      OccursBehind(s[..2], s[2..], p, i);
    }
    forall i: nat | i >= 2 ensures OccursAt(s, p, i) <==> OccursAt(s[2..], p, i - 2) {
      assert OccursAt(s, p, 2 + (i - 2)) <==> OccursAt(s[2..], p, i - 2);
    }
    if Find(s[2..], p).Some? {
      FindIs(s, p, Find(s[2..], p).value + 2);
    }
  }

  /** A rewritten part still names the field, at the same place, and its front
      is as before. */
  lemma RewrittenNames(part: string, field: string, value: string)
    requires Names(part, field)
    ensures var r := Rewritten(part, field, value);
            && Find(r, BLANK) == Find(part, BLANK) && Names(r, field)
            && r[..Find(part, BLANK).value + 4] == part[..Find(part, BLANK).value + 4]
            && r[Find(part, BLANK).value + 4..] == value + CRLF
  {
    var h := Find(part, BLANK).value;
    var front := part[..h + 4];
    var r := Rewritten(part, field, value);
    assert part == front + part[h + 4..] && r == front + (value + CRLF);
    forall j: nat | j <= h ensures OccursAt(r, BLANK, j) <==> OccursAt(part, BLANK, j) {
      OccursInFront(front, value + CRLF, BLANK, j);
      OccursInFront(front, part[h + 4..], BLANK, j);
    }
    FindIs(r, BLANK, h);
    assert r[..h] == part[..h];
  }

  lemma SameStart(r: string, part: string, k: nat, p: string)
    requires |p| <= k <= |r| && k <= |part| && r[..k] == part[..k]
    ensures StartsWith(r, p) == StartsWith(part, p)
  {
    assert r[..|p|] == r[..k][..|p|] && part[..|p|] == part[..k][..|p|];
  }

  /** What the scanner reads in a rewritten part: the value where it read
      something before, except in a part without header lines, which the
      rewriter does not recognise. */
  lemma ContentRewritten(part: string, field: string, value: string)
    ensures Content(Rewritten(part, field, value), field)
         == if BlankFirst(part) then Content(part, field)
            else if Content(part, field).Some? then Some(value) else None
  {
    if BlankFirst(part) {
      FindIs(part, BLANK, 0);
    } else {
      NamesEitherWay(part, field);
      if Names(part, field) {
        ContentReplaced(part, field, value);
      }
    }
  }

  lemma NamesEitherWay(part: string, field: string)
    requires !BlankFirst(part)
    ensures Names(AfterCrlf(part), field) <==> Names(part, field)
  {
    if StartsWith(part, CRLF) {
      NamesAfterCrlf(part, field);
    }
  }

  lemma PastCrlf(part: string, h: nat, value: string)
    requires h + 4 <= |part|
    ensures (part[..h + 4] + value + CRLF)[2..] == part[2..][..h + 2] + value + CRLF
  {
    assert part[2..][..h + 2] == part[..h + 4][2..];
  }

  lemma RewrittenStarts(part: string, field: string, value: string)
    requires Names(part, field)
    ensures StartsWith(Rewritten(part, field, value), CRLF) == StartsWith(part, CRLF)
  {
    RewrittenNames(part, field, value);
    SameStart(Rewritten(part, field, value), part, Find(part, BLANK).value + 4, CRLF);
  }

  lemma RewrittenAfterCrlf(part: string, field: string, value: string)
    requires !BlankFirst(part) && Names(part, field)
    ensures AfterCrlf(Rewritten(part, field, value)) == Rewritten(AfterCrlf(part), field, value)
  {
    RewrittenStarts(part, field, value);
    if StartsWith(part, CRLF) {
      NamesAfterCrlf(part, field);
      PastCrlf(part, Find(part, BLANK).value, value);
    }
  }

  lemma ContentOf(q: string, field: string, value: string, h: nat)
    requires Find(q, BLANK) == Some(h) && q[h + 4..] == value + CRLF && Names(q, field)
    ensures EndsWith(q[h + 4..], CRLF) && q[h + 4..][..|q[h + 4..]| - 2] == value
  {
    assert (value + CRLF)[|value|..] == CRLF && (value + CRLF)[..|value|] == value;
  }

  lemma ContentReplaced(part: string, field: string, value: string)
    requires !BlankFirst(part) && Names(part, field)
    ensures Content(Rewritten(part, field, value), field) == if Content(part, field).Some? then Some(value) else None
  {
    var p := AfterCrlf(part);
    NamesEitherWay(part, field);
    RewrittenAfterCrlf(part, field, value);
    RewrittenNames(p, field, value);
    SameStart(Rewritten(p, field, value), p, Find(p, BLANK).value + 4, "--");
    ContentOf(Rewritten(p, field, value), field, value, Find(p, BLANK).value);
  }

  lemma {:induction false} FirstRewritten(parts: seq<string>, field: string, value: string)
    ensures FirstContent(RewriteAll(parts, field, value), field) == ReadBack(parts, field, value)
  {
    if parts != [] {
      ContentRewritten(parts[0], field, value);
      FirstRewritten(parts[1..], field, value);
    }
  }

  /** The first part with the field decides: if it has header lines the new
      value is read, otherwise what was there. */
  function ReadBack(parts: seq<string>, field: string, value: string): Option<string> {
    if parts == [] then None
    else if Content(parts[0], field).None? then ReadBack(parts[1..], field, value)
    else if BlankFirst(parts[0]) then Content(parts[0], field)
    else Some(value)
  }

  /** Reading back, exactly: with a value that does not contain the delimiter,
      the scanner finds in the rewritten body what `ReadBack` says of the
      original one. */
  lemma ReadsBackExactly(body: string, boundary: string, field: string, value: string)
    requires OneLine(boundary) && Find(value, Delimiter(boundary)).None?
    ensures ExtractField(Rewrite(body, boundary, field, value), boundary, field)
         == ReadBack(Parts(body, boundary)[1..], field, value)
  {
    var parts := Parts(body, boundary);
    ResplitsExactly(body, boundary, field, value);
    assert RewriteAll(parts, field, value)[1..] == RewriteAll(parts[1..], field, value);
    FirstRewritten(parts[1..], field, value);
  }

  /** The first part the scanner reads something from. */
  function FirstWith(parts: seq<string>, field: string): (p: string)
    requires FirstContent(parts, field).Some?
    ensures p in parts && Content(p, field) == FirstContent(parts, field)
  {
    if Content(parts[0], field).Some? then parts[0] else FirstWith(parts[1..], field)
  }

  lemma {:induction false} ReadBackDecides(parts: seq<string>, field: string, value: string)
    requires FirstContent(parts, field).Some?
    ensures ReadBack(parts, field, value)
         == if BlankFirst(FirstWith(parts, field)) then FirstContent(parts, field) else Some(value)
  {
    if Content(parts[0], field).None? {
      ReadBackDecides(parts[1..], field, value);
    }
  }

  /** Where something is there to be read, the value written is read back if and
      only if the part it is read from has header lines or holds it already. */
  lemma WriteIsReadExactly(body: string, boundary: string, field: string, value: string)
    requires OneLine(boundary) && Find(value, Delimiter(boundary)).None?
    requires ExtractField(body, boundary, field).Some?
    ensures ExtractField(Rewrite(body, boundary, field, value), boundary, field) == Some(value)
            <==> !BlankFirst(FirstWith(Parts(body, boundary)[1..], field))
                 || ExtractField(body, boundary, field) == Some(value)
  {
    ReadsBackExactly(body, boundary, field, value);
    ReadBackDecides(Parts(body, boundary)[1..], field, value);
  }

  // ── A part without header lines ─────────────────────────────────────────

  const NAMED := "name=\"x\""

  const HEADERLESS := BLANK + NAMED + BLANK + "foo" + CRLF

  const HEADERLESS_BODY := "--b" + HEADERLESS + "--b" + "--\r\n"

  lemma Absent(s: string, p: string, c: char)
    requires c in p && c !in s
    ensures Find(s, p).None?
  {
    var k :| 0 <= k < |p| && p[k] == c;
    forall j: nat | j + |p| <= |s| ensures !OccursAt(s, p, j) {
      assert s[j + k] in s && s[j..j + |p|][k] == s[j + k];
    }
  }

  lemma NoDashes()
    ensures '-' !in HEADERLESS
  {
    assert '-' !in BLANK && '-' !in CRLF && '-' !in "foo" && '-' !in NAMED;
  }

  lemma HeaderlessCut()
    ensures CutsAtEnd(HEADERLESS, "--b")
  {
    var front := BLANK + NAMED + BLANK + "foo" + "\r";
    NoDashes();
    assert HEADERLESS == front + ['\n'];
    assert forall c :: c in front ==> c in HEADERLESS;
    Absent(front, "--b", "--b"[0]);
    FindIs("--b", "--b", 0);
    FindAcross(front, '\n', "--b", "--b");
  }

  lemma SplitLeading(d: string, rest: string)
    requires d != ""
    ensures Split(d + rest, d) == [""] + Split(rest, d)
  {
    assert "" + d == d;
    FindIs(d, d, 0);
    SplitOne("", d, rest);
  }

  lemma SplitLast(d: string, middle: string, last: string)
    requires d != "" && CutsAtEnd(middle, d) && Find(last, d).None?
    ensures Split(middle + d + last, d) == [middle, last]
  {
    SplitOne(middle, d, last);
  }

  lemma HeaderlessParts()
    ensures Parts(HEADERLESS_BODY, "b") == ["", HEADERLESS, "--\r\n"]
  {
    var d, last := "--b", "--\r\n";
    HeaderlessCut();
    Absent(last, d, d[2]);
    SplitLast(d, HEADERLESS, last);
    SplitLeading(d, HEADERLESS + d + last);
    assert HEADERLESS_BODY == d + (HEADERLESS + d + last);
    assert Delimiter("b") == d;
  }

  /** The blank line that ends what the scanner takes for headers. */
  lemma HeaderlessBlank(rest: string)
    ensures Find(CRLF + NAMED + BLANK + rest, BLANK) == Some(10)
  {
    var ame := "ame=\"x";
    Absent(ame, BLANK, BLANK[0]);
    FindAcross(CRLF, 'n', ame, BLANK);
    assert OccursAt(BLANK + rest, BLANK, 0);
    FindIs(BLANK + rest, BLANK, 0);
    FindAcross(CRLF + ['n'] + ame, '"', BLANK + rest, BLANK);
    assert CRLF + NAMED + BLANK + rest == CRLF + ['n'] + ame + ['"'] + (BLANK + rest);
  }

  lemma HeaderlessContent()
    ensures BlankFirst(HEADERLESS) && Content(HEADERLESS, "x") == Some("foo")
  {
    var rest := "foo" + CRLF;
    var p := CRLF + NAMED + BLANK + rest;
    assert HEADERLESS == BLANK + (NAMED + BLANK + rest) && BLANK == CRLF + CRLF;
    assert HEADERLESS == CRLF + p;
    assert AfterCrlf(HEADERLESS) == p;
    HeaderlessBlank(rest);
    assert p[..10] == CRLF + NAMED && p[14..] == rest;
    assert Needle("x") == NAMED;
    OccursBehind(CRLF, NAMED, NAMED, 0);
    assert p[0] == '\r';
    assert rest[3..] == CRLF && rest[..3] == "foo";
  }

  /** The scanner reads a part without header lines whose content begins with
      something like them; the rewriter leaves it alone, whatever the value. */
  lemma HeaderlessKept(value: string)
    requires Find(value, "--b").None?
    ensures ExtractField(HEADERLESS_BODY, "b", "x") == Some("foo")
    ensures ExtractField(Rewrite(HEADERLESS_BODY, "b", "x", value), "b", "x") == Some("foo")
  {
    HeaderlessParts();
    HeaderlessContent();
    assert ["", HEADERLESS, "--\r\n"][1..][0] == HEADERLESS;
    assert Delimiter("b") == "--b";
    ReadsBackExactly(HEADERLESS_BODY, "b", "x", value);
  }

  lemma {:induction false} ReadBackWellFormed(parts: seq<string>, field: string, value: string)
    requires forall part :: part in parts ==> !BlankFirst(part)
    ensures ReadBack(parts, field, value) == if FirstContent(parts, field).Some? then Some(value) else None
  {
    if parts != [] {
      assert parts[0] in parts;
      ReadBackWellFormed(parts[1..], field, value);
    }
  }

  /** On bodies whose parts have header lines, what is written is read back
      exactly if the field was there to be read. */
  lemma WriteThenRead(body: string, boundary: string, field: string, value: string)
    requires OneLine(boundary) && Find(value, Delimiter(boundary)).None?
    requires forall part :: part in Parts(body, boundary) ==> !BlankFirst(part)
    ensures ExtractField(Rewrite(body, boundary, field, value), boundary, field)
         == if ExtractField(body, boundary, field).Some? then Some(value) else None
  {
    var parts := Parts(body, boundary);
    ReadsBackExactly(body, boundary, field, value);
    forall part | part in parts[1..] ensures !BlankFirst(part) {
      assert part in parts;
    }
    ReadBackWellFormed(parts[1..], field, value);
  }

  lemma RewrittenTwice(part: string, field: string, first: string, second: string)
    ensures Rewritten(Rewritten(part, field, first), field, second) == Rewritten(part, field, second)
  {
    if Names(part, field) {
      RewrittenNames(part, field, first);
    }
  }

  /** The last write wins, and a repeated write changes nothing. */
  lemma LastWriteWins(body: string, boundary: string, field: string, first: string, second: string)
    requires OneLine(boundary) && Find(first, Delimiter(boundary)).None?
    ensures Rewrite(Rewrite(body, boundary, field, first), boundary, field, second)
         == Rewrite(body, boundary, field, second)
  {
    var parts := Parts(body, boundary);
    ResplitsExactly(body, boundary, field, first);
    var once := RewriteAll(parts, field, first);
    forall k | 0 <= k < |parts| ensures RewriteAll(once, field, second)[k] == RewriteAll(parts, field, second)[k] {
      RewrittenTwice(parts[k], field, first, second);
    }
    assert RewriteAll(once, field, second) == RewriteAll(parts, field, second);
  }
}
