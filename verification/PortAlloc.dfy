/** The port allocator's cyclic scan: complete on every range that ends below
    65535, and exactly when it leaves the range otherwise. */
module PortAlloc {
  import opened Base

  datatype PortRange = Range(start: nat, end: nat) | Ephemeral

  const PORTS: nat := 65536

  // ── The scan ────────────────────────────────────────────────────────────

  /** The candidate at a cursor: past the end the scan starts over. */
  function Candidate(next: nat, r: PortRange): nat {
    if r.Range? && next > r.end then r.start else next
  }

  /** The 16-bit successor. */
  function After(port: nat): nat {
    (port + 1) % PORTS
  }

  /** The `k`-th port looked at. */
  function Visit(next: nat, r: PortRange, k: nat): nat
    decreases k
  {
    if k == 0 then Candidate(next, r) else Visit(After(Candidate(next, r)), r, k - 1)
  }

  predicate Usable(used: set<nat>, probe: nat -> bool, p: nat) {
    p !in used && probe(p)
  }

  /** The port found within `n` candidates, and the cursor afterwards. */
  function Scan(next: nat, r: PortRange, n: nat, used: set<nat>, probe: nat -> bool): (Option<nat>, nat)
    decreases n
  {
    if n == 0 then (None, next) else
    var c := Candidate(next, r);
    if Usable(used, probe, c) then (Some(c), After(c)) else Scan(After(c), r, n - 1, used, probe)
  }

  function Size(r: PortRange): nat {
    if r.Ephemeral? || r.start > r.end || r.start == 0 then 0 else r.end - r.start + 1
  }

  /** Ranges the scan is complete on. */
  predicate Proper(r: PortRange) {
    r.Range? && 1 <= r.start <= r.end < 65535
  }

  /** Where the cursor of a proper range can be. */
  predicate CursorOk(next: nat, r: PortRange) {
    r.Range? && r.start <= next <= r.end + 1
  }

  // ── What it visits ──────────────────────────────────────────────────────

  lemma {:induction false} VisitClosedForm(next: nat, r: PortRange, k: nat)
    requires Proper(r) && CursorOk(next, r) && k < Size(r)
    ensures var c := Candidate(next, r);
            Visit(next, r, k) == if c + k <= r.end then c + k else c + k - Size(r)
    decreases k
  {
    if k > 0 {
      VisitClosedForm(After(Candidate(next, r)), r, k - 1);
    }
  }

  /** From any reachable cursor, every port of the range is visited exactly once. */
  lemma EachVisitedOnce(next: nat, r: PortRange, p: nat)
    requires Proper(r) && CursorOk(next, r)
    ensures r.start <= p <= r.end <==> exists k: nat :: k < Size(r) && Visit(next, r, k) == p
    ensures forall j: nat, k: nat :: j < k < Size(r) ==> Visit(next, r, j) != Visit(next, r, k)
  {
    forall k: nat | k < Size(r)
      ensures var c := Candidate(next, r); Visit(next, r, k) == if c + k <= r.end then c + k else c + k - Size(r)
    {
      VisitClosedForm(next, r, k);
    }
    if r.start <= p <= r.end {
      var c := Candidate(next, r);
      var k := if p >= c then p - c else p + Size(r) - c;
      assert Visit(next, r, k) == p;
    }
  }

  /** `p` is the first usable port in visiting order, after `k` others. */
  ghost predicate FirstUsable(next: nat, r: PortRange, used: set<nat>, probe: nat -> bool, k: nat, p: nat) {
    && Visit(next, r, k) == p && Usable(used, probe, p)
    && (forall j: nat :: j < k ==> !Usable(used, probe, Visit(next, r, j)))
  }

  /** The scan finds the first usable port in visiting order, if there is one. */
  lemma {:induction false} ScanFindsFirst(next: nat, r: PortRange, n: nat, used: set<nat>, probe: nat -> bool)
    ensures var (found, cursor) := Scan(next, r, n, used, probe);
            match found
            case None => forall k: nat :: k < n ==> !Usable(used, probe, Visit(next, r, k))
            case Some(p) => cursor == After(p) && exists k: nat :: k < n && FirstUsable(next, r, used, probe, k, p)
    decreases n
  {
    if n > 0 {
      var c := Candidate(next, r);
      assert Visit(next, r, 0) == c;
      if Usable(used, probe, c) {
        assert FirstUsable(next, r, used, probe, 0, c);
      } else {
        ScanFindsFirst(After(c), r, n - 1, used, probe);
        var (found, cursor) := Scan(After(c), r, n - 1, used, probe);
        forall k: nat | 0 < k ensures Visit(next, r, k) == Visit(After(c), r, k - 1) {}
        if found.Some? {
          var k: nat :| k < n - 1 && FirstUsable(After(c), r, used, probe, k, found.value);
          assert FirstUsable(next, r, used, probe, k + 1, found.value);
        }
      }
    }
  }

  /** Completeness: `None` means that every port of the range is used or busy;
      a port returned is in the range, free by the probe and not in use. */
  lemma ScanComplete(next: nat, r: PortRange, used: set<nat>, probe: nat -> bool)
    requires Proper(r) && CursorOk(next, r)
    ensures var (found, cursor) := Scan(next, r, Size(r), used, probe);
            && (found.None? <==> forall p: nat :: r.start <= p <= r.end ==> p in used || !probe(p))
            && (found.Some? ==> r.start <= found.value <= r.end && cursor == found.value + 1
                                && found.value !in used && probe(found.value))
  {
    ScanFindsFirst(next, r, Size(r), used, probe);
    var (found, cursor) := Scan(next, r, Size(r), used, probe);
    if found.None? {
      forall p: nat | r.start <= p <= r.end ensures p in used || !probe(p) {
        EachVisitedOnce(next, r, p);
        var k: nat :| k < Size(r) && Visit(next, r, k) == p;
        assert !Usable(used, probe, Visit(next, r, k));
      }
    } else {
      var k: nat :| k < Size(r) && FirstUsable(next, r, used, probe, k, found.value);
      VisitClosedForm(next, r, k);
      assert found.value !in used && probe(found.value);
    }
  }

  /** The same of the scan's two results. */
  lemma ScanPromises(next: nat, r: PortRange, used: set<nat>, probe: nat -> bool, found: Option<nat>, cursor: nat)
    requires (found, cursor) == Scan(next, r, Size(r), used, probe) && (Proper(r) ==> CursorOk(next, r))
    ensures Proper(r) ==>
              && (found.None? <==> forall p: nat :: r.start <= p <= r.end ==> p in used || !probe(p))
              && (found.Some? ==> r.start <= found.value <= r.end) && CursorOk(cursor, r)
    ensures found.Some? ==> found.value !in used && probe(found.value)
  {
    ScanFindsFirst(next, r, Size(r), used, probe);
    if Proper(r) {
      ScanComplete(next, r, used, probe);
      ScanCursor(next, r, Size(r), used, probe);
    }
  }

  lemma {:induction false} ScanCursor(next: nat, r: PortRange, n: nat, used: set<nat>, probe: nat -> bool)
    requires Proper(r) && CursorOk(next, r)
    ensures CursorOk(Scan(next, r, n, used, probe).1, r)
    decreases n
  {
    if n > 0 {
      ScanCursor(After(Candidate(next, r)), r, n - 1, used, probe);
    }
  }

  // ── A range that ends at 65535 ──────────────────────────────────────────

  /** The scan looks at no port outside its range. */
  ghost predicate StaysInside(next: nat, r: PortRange)
    requires r.Range?
  {
    forall k: nat :: k < Size(r) ==> r.start <= Visit(next, r, k) <= r.end
  }

  lemma {:induction false} VisitUpward(next: nat, r: PortRange, k: nat)
    requires r.Range? && r.end == PORTS - 1 && next + k < PORTS
    ensures Visit(next, r, k) == next + k
    decreases k
  {
    if k > 0 {
      VisitUpward(next + 1, r, k - 1);
    }
  }

  lemma {:induction false} VisitWraps(next: nat, r: PortRange)
    requires r.Range? && r.end == PORTS - 1 && next < PORTS
    ensures Visit(next, r, PORTS - next) == 0
    decreases PORTS - next
  {
    if next < PORTS - 1 {
      VisitWraps(next + 1, r);
    } else {
      assert Visit(next, r, 1) == Visit(After(next), r, 0);
    }
  }

  /** The wrap of the 16-bit cursor goes to 0, not to the start of the range:
      a scan stays inside its range if and only if the range ends below 65535
      or the cursor stands at its start. */
  lemma StaysInsideExactly(next: nat, r: PortRange)
    requires r.Range? && 1 <= r.start <= r.end <= 65535
    requires if r.end < 65535 then CursorOk(next, r) else next <= 65535
    ensures StaysInside(next, r) <==> r.end < 65535 || next == r.start
  {
    if r.end < 65535 {
      forall k: nat | k < Size(r) ensures r.start <= Visit(next, r, k) <= r.end {
        VisitClosedForm(next, r, k);
      }
    } else if next == r.start {
      forall k: nat | k < Size(r) ensures r.start <= Visit(next, r, k) <= r.end {
        VisitUpward(next, r, k);
      }
    } else if next < r.start {
      assert Visit(next, r, 0) == next;
    } else {
      VisitWraps(next, r);
      assert PORTS - next < Size(r);
    }
  }

  /** With the one-port range 65535-65535, freeing that port and allocating
      again looks at port 0, which every bind probe finds free. */
  lemma WrapLeavesRange()
    ensures var r := Range(65535, 65535);
            var (first, cursor) := Scan(65535, r, Size(r), {}, (p: nat) => true);
            first == Some(65535) && Scan(cursor, r, Size(r), {}, (p: nat) => true).0 == Some(0)
  {
    var r := Range(65535, 65535);
    assert Size(r) == 1;
    assert Scan(65535, r, 1, {}, (p: nat) => true) == (Some(65535), 0);
    assert Scan(0, r, 1, {}, (p: nat) => true) == (Some(0), 1);
  }

  // ── The allocator ───────────────────────────────────────────────────────

  class PortAllocator {
    var used: set<nat>
    var range: PortRange
    var next: nat

    /** On a proper range the cursor stays in the range or one past it. */
    ghost predicate Valid()
      reads this
    {
      (range.Range? ==> range.start < PORTS && range.end < PORTS) && (Proper(range) ==> CursorOk(next, range))
    }

    constructor (range: PortRange)
      requires range.Range? ==> range.start < PORTS && range.end < PORTS
      ensures Valid() && used == {} && this.range == range
    {
      used := {};
      this.range := range;
      next := if range.Range? then range.start else 0;
    }

    /** `probe` tells which ports can be bound right now. */
    method AllocateRangeSync(probe: nat -> bool) returns (port: Option<nat>)
      requires Valid()
      modifies this`used, this`next
      ensures Valid()
      ensures range.Ephemeral? ==> port.None? && next == old(next)
      ensures range.Range? ==> (port, next) == Scan(old(next), range, Size(range), old(used), probe)
      ensures used == if port.Some? then old(used) + {port.value} else old(used)
      ensures port.Some? ==> port.value !in old(used) && probe(port.value)
      ensures Proper(range) ==>
                (port.Some? ==> range.start <= port.value <= range.end)
                && (port.None? <==> forall p: nat :: range.start <= p <= range.end ==> p in old(used) || !probe(p))
    {
      if range.Ephemeral? || range.start > range.end || range.start == 0 {
        return None;
      }
      ghost var whole := Scan(next, range, Size(range), used, probe);
      ScanPromises(next, range, used, probe, whole.0, whole.1);
      for k := 0 to range.end - range.start + 1
        invariant used == old(used)
        invariant Scan(next, range, Size(range) - k, used, probe) == whole
      {
        if next > range.end {
          next := range.start;
        }
        var candidate := next;
        next := (candidate + 1) % PORTS;
        if candidate in used {
          continue;
        }
        if !probe(candidate) {
          continue;
        }
        used := used + {candidate};
        return Some(candidate);
      }
      return None;
    }

    /** Gives a port back; the next scan can find it again. */
    method Free(port: nat)
      requires Valid()
      modifies this`used
      ensures Valid() && used == old(used) - {port}
    {
      used := used - {port};
    }

    /** A new range: ports in use stay tracked, the scan restarts. */
    method SetRange(r: PortRange)
      requires Valid() && (r.Range? ==> r.start < PORTS && r.end < PORTS)
      modifies this`range, this`next
      ensures Valid() && range == r && used == old(used) && (r.Range? ==> next == r.start)
    {
      next := if r.Range? then r.start else 0;
      range := r;
    }
  }
}
