/** Substring search and splitting, over ASCII text. */
module Text {
  import opened Base

  predicate StartsWith(s: string, p: string) {
    |p| <= |s| && s[..|p|] == p
  }

  predicate EndsWith(s: string, p: string) {
    |p| <= |s| && s[|s| - |p|..] == p
  }

  predicate OccursAt(s: string, p: string, i: nat) {
    i + |p| <= |s| && s[i..i + |p|] == p
  }

  function FindFrom(s: string, p: string, i: nat): (r: Option<nat>)
    ensures r.Some? ==> i <= r.value && OccursAt(s, p, r.value) && forall j: nat :: i <= j < r.value ==> !OccursAt(s, p, j)
    ensures r.None? ==> forall j: nat :: i <= j ==> !OccursAt(s, p, j)
    decreases |s| - i
  {
    if i + |p| > |s| then None else if OccursAt(s, p, i) then Some(i) else FindFrom(s, p, i + 1)
  }

  /** The first occurrence of `p`. */
  function Find(s: string, p: string): Option<nat> { FindFrom(s, p, 0) }

  lemma FindIs(s: string, p: string, i: nat)
    requires OccursAt(s, p, i) && forall j: nat :: j < i ==> !OccursAt(s, p, j)
    ensures Find(s, p) == Some(i)
  {
  }

  /** Occurrences within `a` do not depend on what follows. */
  lemma OccursInFront(a: string, b: string, p: string, i: nat)
    requires i + |p| <= |a|
    ensures OccursAt(a + b, p, i) == OccursAt(a, p, i)
  {
    assert (a + b)[i..i + |p|] == a[i..i + |p|];
  }

  lemma OccursBehind(a: string, b: string, p: string, i: nat)
    ensures OccursAt(a + b, p, |a| + i) == OccursAt(b, p, i)
  {
    if i + |p| <= |b| {
      assert (a + b)[|a| + i..|a| + i + |p|] == b[i..i + |p|];
    }
  }

  /** A character that does not occur in `p` separates its occurrences. */
  lemma Barrier(a: string, x: char, b: string, p: string, i: nat)
    requires p != [] && x !in p && i <= |a|
    ensures OccursAt(a + [x] + b, p, i) <==> OccursAt(a, p, i)
  {
    var s := a + [x] + b;
    if i + |p| <= |a| {
      OccursInFront(a, [x] + b, p, i);
      assert s == a + ([x] + b);
    } else {
      var k := |a| - i;
      assert p[k] in p && s[i + k] == x;
      assert i + |p| <= |s| ==> s[i..i + |p|][k] == x;
    }
  }

  /** Searching across such a character is searching on either side. */
  lemma FindAcross(a: string, x: char, b: string, p: string)
    requires p != [] && x !in p
    ensures Find(a + [x] + b, p) ==
              if Find(a, p).Some? then Find(a, p)
              else match Find(b, p) case None => None case Some(k) => Some(|a| + 1 + k)
  {
    var s := a + [x] + b;
    forall i: nat | i <= |a| ensures OccursAt(s, p, i) <==> OccursAt(a, p, i) {
      Barrier(a, x, b, p, i);
    }
    forall i: nat ensures OccursAt(s, p, |a| + 1 + i) <==> OccursAt(b, p, i) {
      OccursBehind(a + [x], b, p, i);
    }
    if Find(a, p).Some? {
      FindIs(s, p, Find(a, p).value);
    } else {
      forall i: nat | |a| < i ensures OccursAt(s, p, i) <==> OccursAt(b, p, i - |a| - 1) {
        assert OccursAt(s, p, |a| + 1 + (i - |a| - 1)) <==> OccursAt(b, p, i - |a| - 1);
      }
      if Find(b, p).Some? {
        FindIs(s, p, |a| + 1 + Find(b, p).value);
      }
    }
  }

  function Join(parts: seq<string>, sep: string): string {
    if parts == [] then "" else if |parts| == 1 then parts[0] else parts[0] + sep + Join(parts[1..], sep)
  }

  lemma JoinUnfold(f: string, rest: seq<string>, sep: string)
    requires rest != []
    ensures Join([f] + rest, sep) == f + sep + Join(rest, sep)
  {
    assert ([f] + rest)[1..] == rest;
  }

  /** Cutting at every occurrence, leftmost first. */
  function Split(s: string, sep: string): (r: seq<string>)
    requires sep != []
    ensures r != []
    decreases |s|
  {
    match Find(s, sep)
    case None => [s]
    case Some(p) => [s[..p]] + Split(s[p + |sep|..], sep)
  }

  /** Splitting loses nothing. */
  lemma {:induction false} JoinSplit(s: string, sep: string)
    requires sep != []
    ensures Join(Split(s, sep), sep) == s
    decreases |s|
  {
    match Find(s, sep)
    case None =>
    case Some(p) =>
      JoinSplit(s[p + |sep|..], sep);
      JoinUnfold(s[..p], Split(s[p + |sep|..], sep), sep);
  }

  /** Followed by a separator, the part is cut where it ends. */
  predicate CutsAtEnd(part: string, sep: string) {
    Find(part + sep, sep) == Some(|part|)
  }

  lemma CutAnywhere(part: string, sep: string, rest: string)
    requires CutsAtEnd(part, sep)
    ensures Find(part + sep + rest, sep) == Some(|part|)
  {
    var s := part + sep;
    OccursInFront(s, rest, sep, |part|);
    forall j: nat | j < |part| ensures !OccursAt(s + rest, sep, j) {
      OccursInFront(s, rest, sep, j);
    }
    FindIs(s + rest, sep, |part|);
  }

  lemma CutHere(s: string, sep: string, p: nat)
    requires sep != [] && Find(s, sep) == Some(p)
    ensures CutsAtEnd(s[..p], sep)
  {
    var front := s[..p] + sep;
    assert s == front + s[p + |sep|..];
    forall j: nat | j <= p ensures OccursAt(front, sep, j) == OccursAt(s, sep, j) {
      OccursInFront(front, s[p + |sep|..], sep, j);
    }
    FindIs(front, sep, p);
  }

  /** What the parts of a split are like, and what makes a list of parts a split. */
  ghost predicate SplitParts(parts: seq<string>, sep: string) {
    && parts != []
    && (forall k :: 0 <= k < |parts| - 1 ==> CutsAtEnd(parts[k], sep))
    && Find(parts[|parts| - 1], sep).None?
  }

  lemma {:induction false} SplitIsParts(s: string, sep: string)
    requires sep != []
    ensures SplitParts(Split(s, sep), sep)
    decreases |s|
  {
    match Find(s, sep)
    case None =>
    case Some(p) =>
      SplitIsParts(s[p + |sep|..], sep);
      CutHere(s, sep, p);
  }

  lemma SplitOne(part: string, sep: string, rest: string)
    requires sep != [] && CutsAtEnd(part, sep)
    ensures Split(part + sep + rest, sep) == [part] + Split(rest, sep)
  {
    CutAnywhere(part, sep, rest);
    var s := part + sep + rest;
    assert s[..|part|] == part && s[|part| + |sep|..] == rest;
  }

  lemma {:induction false} PartsSplit(parts: seq<string>, sep: string)
    requires sep != [] && SplitParts(parts, sep)
    ensures Split(Join(parts, sep), sep) == parts
    decreases |parts|
  {
    if |parts| > 1 {
      PartsSplit(parts[1..], sep);
      SplitOne(parts[0], sep, Join(parts[1..], sep));
    }
  }

  /** A list of parts survives joining and splitting exactly if it is one. */
  lemma ResplitExactly(parts: seq<string>, sep: string)
    requires sep != []
    ensures Split(Join(parts, sep), sep) == parts <==> SplitParts(parts, sep)
  {
    SplitIsParts(Join(parts, sep), sep);
    if SplitParts(parts, sep) {
      PartsSplit(parts, sep);
    }
  }

  lemma CutsContainNone(part: string, sep: string)
    requires sep != [] && CutsAtEnd(part, sep)
    ensures Find(part, sep).None?
  {
    forall j: nat | j + |sep| <= |part| ensures !OccursAt(part, sep, j) {
      OccursInFront(part, sep, sep, j);
    }
  }

  method FindSubslice(haystack: string, needle: string) returns (r: Option<nat>)
    requires needle != []
    ensures r == Find(haystack, needle)
  {
    var i := 0;
    while i + |needle| <= |haystack|
      invariant forall j: nat :: j < i ==> !OccursAt(haystack, needle, j)
      decreases |haystack| - i
    {
      if haystack[i..i + |needle|] == needle {
        FindIs(haystack, needle, i);
        return Some(i);
      }
      i := i + 1;
    }
    r := None;
  }
}
