/** `validateAndCleanRanges`: the byte ranges of a request against the size of the file. */
module Ranges {
  import opened Wrappers
  import opened ServerConfig

  /** As requested: a missing start asks for the last `end` bytes, a missing end for everything from `start`. */
  datatype Range = Range(start: Option<nat>, end: Option<nat>)

  /** A cleaned range, both ends included. */
  datatype Interval = Interval(start: nat, end: nat)

  /** Whether byte `k` of a file is asked for. */
  predicate Wants(r: Range, fileSize: nat, k: nat) {
    k < fileSize &&
    match r
    case Range(None, None) => false
    case Range(None, Some(n)) => fileSize <= k + n
    case Range(Some(s), None) => s <= k
    case Range(Some(s), Some(e)) => s <= k <= e
  }

  predicate Satisfiable(r: Range, fileSize: nat) { exists k: nat :: k < fileSize && Wants(r, fileSize, k) }

  predicate Representable(r: Range) {
    (r.start.Some? ==> r.start.value < SIZE_T) && (r.end.Some? ==> r.end.value < SIZE_T)
  }

  /** `fileSize - 1` in `size_t`. */
  function LastByte(fileSize: nat): nat { (fileSize + SIZE_T - 1) % SIZE_T }

  predicate In(i: Interval, k: nat) { i.start <= k <= i.end }

  predicate Covered(xs: seq<Interval>, k: nat) { exists i :: 0 <= i < |xs| && In(xs[i], k) }

  predicate Sorted(xs: seq<Interval>) { forall i, j :: 0 <= i < j < |xs| ==> xs[i].start <= xs[j].start }

  /** One range; what is read from an absent end makes no difference, because it is replaced. */
  method CleanRange(r: Range, fileSize: nat, absentEnd: nat) returns (clean: Option<Interval>)
    requires Representable(r) && fileSize < SIZE_T
    ensures clean.Some? <==> Satisfiable(r, fileSize)
    ensures clean.Some? ==> clean.value.start <= clean.value.end < fileSize
    ensures clean.Some? ==> forall k: nat :: In(clean.value, k) <==> Wants(r, fileSize, k)
  {
    if r.start.None? && r.end.None? { return None; }
    var start: nat;
    var end: nat;
    if r.start.None? {
      start := if r.end.value >= fileSize then 0 else fileSize - r.end.value;
      end := LastByte(fileSize);
    } else {
      start := r.start.value;
      end := if r.end.Some? then r.end.value else absentEnd;
      if end >= fileSize { end := LastByte(fileSize); }
      if r.end.None? { end := LastByte(fileSize); }
    }
    if start > end { return None; }
    if start >= fileSize { return None; }
    assert Wants(r, fileSize, start);
    return Some(Interval(start, end));
  }

  /** `std::sort` by start; nothing is said of the order of equal starts. */
  method SortByStart(xs: seq<Interval>) returns (sorted: seq<Interval>)
    ensures Sorted(sorted) && multiset(sorted) == multiset(xs)
  {
    sorted := [];
    var n := 0;
    while n < |xs|
      invariant 0 <= n <= |xs| && Sorted(sorted) && multiset(sorted) == multiset(xs[..n])
    {
      assert xs[..n + 1] == xs[..n] + [xs[n]];
      sorted := InsertByStart(sorted, xs[n]);
      n := n + 1;
    }
    assert xs[..n] == xs;
  }

  method InsertByStart(xs: seq<Interval>, x: Interval) returns (ys: seq<Interval>)
    requires Sorted(xs)
    ensures Sorted(ys) && multiset(ys) == multiset(xs) + multiset{x}
  {
    var at := 0;
    while at < |xs| && xs[at].start <= x.start
      invariant 0 <= at <= |xs| && forall i :: 0 <= i < at ==> xs[i].start <= x.start
    {
      at := at + 1;
    }
    ys := xs[..at] + [x] + xs[at..];
    assert xs == xs[..at] + xs[at..];
    InsertedSorted(xs, x, at);
  }

  lemma InsertedSorted(xs: seq<Interval>, x: Interval, at: nat)
    requires Sorted(xs) && at <= |xs|
    requires (forall i :: 0 <= i < at ==> xs[i].start <= x.start) && (at < |xs| ==> x.start < xs[at].start)
    ensures Sorted(xs[..at] + [x] + xs[at..])
  {
    var ys := xs[..at] + [x] + xs[at..];
    assert forall i :: 0 <= i < at ==> ys[i] == xs[i];
    assert ys[at] == x;
    assert forall i :: at < i < |ys| ==> ys[i] == xs[i - 1] && xs[at].start <= xs[i - 1].start;
  }

  predicate Within(xs: seq<Interval>, fileSize: nat) {
    forall i :: 0 <= i < |xs| ==> xs[i].start <= xs[i].end < fileSize
  }

  /** At least one byte lies between two intervals. */
  predicate Gapped(xs: seq<Interval>) { forall i, j :: 0 <= i < j < |xs| ==> xs[i].end + 1 < xs[j].start }

  lemma CoveredAppend(xs: seq<Interval>, x: Interval, k: nat)
    ensures Covered(xs + [x], k) <==> Covered(xs, k) || In(x, k)
  {
    assert (xs + [x])[|xs|] == x;
    assert forall i :: 0 <= i < |xs| ==> (xs + [x])[i] == xs[i];
  }

  lemma CoveredWithin(xs: seq<Interval>, js: seq<Interval>, k: nat)
    requires multiset(xs) == multiset(js)
    ensures Covered(xs, k) ==> Covered(js, k)
  {
    if Covered(xs, k) {
      var i :| 0 <= i < |xs| && In(xs[i], k);
      assert xs[i] in multiset(js);
      var j :| 0 <= j < |js| && js[j] == xs[i];
    }
  }

  /** Touching and overlapping neighbours become one. */
  method MergeSorted(xs: seq<Interval>, fileSize: nat) returns (merged: seq<Interval>)
    requires xs != [] && Sorted(xs) && Within(xs, fileSize)
    ensures merged != [] && Within(merged, fileSize) && Gapped(merged)
    ensures forall k: nat :: Covered(merged, k) <==> Covered(xs, k)
  {
    merged := [xs[0]];
    assert xs[..1] == [xs[0]];
    var i := 1;
    while i < |xs|
      invariant 1 <= i <= |xs| && merged != [] && Within(merged, fileSize) && Gapped(merged)
      invariant merged[|merged| - 1].start <= xs[i - 1].start
      invariant forall k: nat :: Covered(merged, k) <==> Covered(xs[..i], k)
    {
      ghost var before := merged;
      var last := merged[|merged| - 1];
      assert merged == merged[..|merged| - 1] + [last];
      assert xs[..i + 1] == xs[..i] + [xs[i]];
      if xs[i].start <= last.end + 1 {
        var grown := Interval(last.start, if last.end < xs[i].end then xs[i].end else last.end);
        merged := merged[..|merged| - 1] + [grown];
        forall k: nat ensures Covered(merged, k) <==> Covered(xs[..i + 1], k) {
          CoveredAppend(before[..|before| - 1], last, k);
          CoveredAppend(before[..|before| - 1], grown, k);
          CoveredAppend(xs[..i], xs[i], k);
        }
      } else {
        merged := merged + [xs[i]];
        forall k: nat ensures Covered(merged, k) <==> Covered(xs[..i + 1], k) {
          CoveredAppend(before, xs[i], k);
          CoveredAppend(xs[..i], xs[i], k);
        }
      }
      i := i + 1;
    }
    assert xs[..i] == xs;
  }

  predicate Wanted(ranges: seq<Range>, fileSize: nat, k: nat) { exists i :: 0 <= i < |ranges| && Wants(ranges[i], fileSize, k) }

  /**
   * The list is accepted exactly when each range asks for some byte of the file. The cleaned list is in order and in
   * bounds, its intervals are apart, and they hold exactly the bytes asked for.
   */
  method ValidateAndCleanRanges(ranges: seq<Range>, fileSize: nat, absentEnd: nat) returns (ok: bool, cleaned: seq<Interval>)
    requires (forall i :: 0 <= i < |ranges| ==> Representable(ranges[i])) && fileSize < SIZE_T
    ensures ok <==> forall i :: 0 <= i < |ranges| ==> Satisfiable(ranges[i], fileSize)
    ensures ok ==> Within(cleaned, fileSize) && Gapped(cleaned)
    ensures ok ==> forall k: nat :: Covered(cleaned, k) <==> Wanted(ranges, fileSize, k)
  {
    cleaned := [];
    if ranges == [] { return true, cleaned; }
    var i := 0;
    while i < |ranges|
      invariant 0 <= i <= |ranges| && |cleaned| == i && Within(cleaned, fileSize)
      invariant forall j :: 0 <= j < i ==> Satisfiable(ranges[j], fileSize) && forall k: nat :: In(cleaned[j], k) <==> Wants(ranges[j], fileSize, k)
    {
      var clean := CleanRange(ranges[i], fileSize, absentEnd);
      if clean.None? { return false, cleaned; }
      cleaned := cleaned + [clean.value];
      i := i + 1;
    }
    ghost var separate := cleaned;
    var sorted := SortByStart(cleaned);
    SortedWithin(sorted, separate, fileSize);
    cleaned := MergeSorted(sorted, fileSize);
    forall k: nat ensures Covered(cleaned, k) <==> Wanted(ranges, fileSize, k) {
      CoveredWithin(sorted, separate, k);
      CoveredWithin(separate, sorted, k);
    }
    return true, cleaned;
  }

  lemma SortedWithin(sorted: seq<Interval>, xs: seq<Interval>, fileSize: nat)
    requires multiset(sorted) == multiset(xs) && Within(xs, fileSize) && xs != []
    ensures Within(sorted, fileSize) && sorted != []
  {
    assert xs[0] in multiset(sorted);
    forall i | 0 <= i < |sorted| ensures sorted[i].start <= sorted[i].end < fileSize {
      assert sorted[i] in multiset(xs);
    }
  }
}
