/**
 How long a GPU worker was busy: the sort-and-merge of its phase intervals, and the "other" time that no
 phase accounts for.
 */
module GpuIntervals {

  datatype Interval = Interval(start: int, end: int)

  /******* The measure of a union *******/

  predicate Has(i: Interval, x: int) {
    i.start <= x < i.end
  }

  function Instants(i: Interval): set<int> {
    set x | i.start <= x < i.end && Has(i, x)
  }

  // The instants that some interval covers
  function Covered(s: seq<Interval>): set<int> {
    if s == [] then {} else Covered(s[..|s| - 1]) + Instants(s[|s| - 1])
  }

  lemma {:induction false} CoveredIff(s: seq<Interval>, x: int)
    ensures x in Covered(s) <==> exists i :: i in s && i.start <= x < i.end
  {
    if s != [] {
      var n := |s| - 1;
      CoveredIff(s[..n], x);
      assert s == s[..n] + [s[n]];
      if x in Covered(s[..n]) {
        var i :| i in s[..n] && i.start <= x < i.end;
        assert i in s;
      }
    }
  }

  lemma {:induction false} InstantsSize(i: Interval)
    requires i.start <= i.end
    ensures |Instants(i)| == i.end - i.start
    decreases i.end - i.start
  {
    if i.start < i.end {
      var shorter := Interval(i.start, i.end - 1);
      InstantsSize(shorter);
      assert Instants(i) == Instants(shorter) + {i.end - 1};
    } else {
      assert Instants(i) == {};
    }
  }

  /******* Sorting *******/

  predicate Before(a: Interval, b: Interval) {
    a.start < b.start || (a.start == b.start && a.end <= b.end)
  }

  predicate Sorted(s: seq<Interval>) {
    forall i, j :: 0 <= i < j < |s| ==> Before(s[i], s[j])
  }

  function Insert(s: seq<Interval>, x: Interval): seq<Interval> {
    if s == [] || Before(s[|s| - 1], x) then s + [x]
    else Insert(s[..|s| - 1], x) + [s[|s| - 1]]
  }

  function Sort(s: seq<Interval>): seq<Interval> {
    if s == [] then [] else Insert(Sort(s[..|s| - 1]), s[|s| - 1])
  }

  lemma AppendSorted(s: seq<Interval>, x: Interval)
    requires Sorted(s) && forall y :: y in s ==> Before(y, x)
    ensures Sorted(s + [x])
  {
  }

  lemma {:induction false} InsertSorts(s: seq<Interval>, x: Interval)
    requires Sorted(s)
    ensures Sorted(Insert(s, x)) && multiset(Insert(s, x)) == multiset(s) + multiset{x}
  {
    if s == [] {
    } else if Before(s[|s| - 1], x) {
      AppendSorted(s, x);
    } else {
      var n := |s| - 1;
      WithoutLast(s);
      InsertSorts(s[..n], x);
      forall y | y in Insert(s[..n], x) ensures Before(y, s[n]) {
        assert y in multiset(Insert(s[..n], x));
        assert y in s[..n] || y == x;
      }
      AppendSorted(Insert(s[..n], x), s[n]);
      assert multiset(s) == multiset(s[..n]) + multiset{s[n]};
    }
  }

  lemma {:induction false} SortSorts(s: seq<Interval>)
    ensures Sorted(Sort(s)) && multiset(Sort(s)) == multiset(s)
  {
    if s != [] {
      var n := |s| - 1;
      SortSorts(s[..n]);
      InsertSorts(Sort(s[..n]), s[n]);
      assert s == s[..n] + [s[n]];
    }
  }

  lemma LastIsGreatest(s: seq<Interval>, x: Interval)
    requires Sorted(s) && x in s
    ensures x == s[|s| - 1] || Before(x, s[|s| - 1])
  {
  }

  lemma SameGreatest(s: seq<Interval>, t: seq<Interval>)
    requires Sorted(s) && Sorted(t) && multiset(s) == multiset(t) && s != [] && t != []
    ensures s[|s| - 1] == t[|t| - 1]
  {
    var a, b := s[|s| - 1], t[|t| - 1];
    assert a in multiset(t) && b in multiset(s);
    LastIsGreatest(s, b);
    LastIsGreatest(t, a);
  }

  // The order is total, so every sorting algorithm yields this sequence
  lemma {:induction false} SortedIsUnique(s: seq<Interval>, t: seq<Interval>)
    requires Sorted(s) && Sorted(t) && multiset(s) == multiset(t)
    ensures s == t
  {
    assert |multiset(s)| == |s| && |multiset(t)| == |t|;
    if s != [] {
      var n := |s| - 1;
      WithoutLast(s);
      WithoutLast(t);
      SameGreatest(s, t);
      SortedIsUnique(s[..n], t[..n]);
    }
  }

  lemma WithoutLast(s: seq<Interval>)
    requires s != []
    ensures Sorted(s) ==> Sorted(s[..|s| - 1])
    ensures multiset(s) == multiset(s[..|s| - 1]) + multiset{s[|s| - 1]}
    ensures multiset(s[..|s| - 1]) == multiset(s) - multiset{s[|s| - 1]}
  {
    assert s == s[..|s| - 1] + [s[|s| - 1]];
  }

  lemma CoveredIsOrderless(s: seq<Interval>, t: seq<Interval>)
    requires multiset(s) == multiset(t)
    ensures Covered(s) == Covered(t)
  {
    forall x ensures x in Covered(s) <==> x in Covered(t) {
      CoveredIff(s, x);
      CoveredIff(t, x);
      assert forall i: Interval :: i in s <==> i in multiset(s);
      assert forall i: Interval :: i in t <==> i in multiset(t);
    }
  }

  /******* Merging *******/

  // The one way the merge goes wrong: the first interval in the sort order is taken as it is, even if it
  // ends before it starts
  function Defect(sorted: seq<Interval>): int {
    if sorted != [] && sorted[0].end < sorted[0].start then sorted[0].end - sorted[0].start else 0
  }

  // Having merged done into the finished total and the current run from a to b
  ghost predicate Merged(done: seq<Interval>, total: int, a: int, b: int) {
    && done != []
    && done[0].start <= a <= done[|done| - 1].start
    && (if a <= b then total + (b - a) - Defect(done) == |Covered(done)| else total == 0 && Covered(done) == {} && Defect(done) == b - a)
    && (forall x :: x in Covered(done) ==> x < b)
    && (forall x :: a <= x < b ==> x in Covered(done))
  }

  lemma OneInterval(i: Interval)
    ensures Merged([i], 0, i.start, i.end)
  {
    assert [i][..0] == [];
    assert Covered([i]) == Instants(i);
    if i.start <= i.end { InstantsSize(i); }
  }

  // The finished total and the current run after one more interval
  function Next(total: int, a: int, b: int, i: Interval): (int, int, int) {
    if i.end <= i.start then (total, a, b)
    else if i.start <= b then (total, a, if i.end > b then i.end else b)
    else (total + b - a, i.start, i.end)
  }

  lemma MergeOne(done: seq<Interval>, i: Interval, total: int, a: int, b: int)
    requires Merged(done, total, a, b) && Sorted(done + [i])
    ensures var n := Next(total, a, b, i);
            Merged(done + [i], n.0, n.1, n.2)
  {
    var more := done + [i];
    assert more[..|done|] == done && more[|done|] == i;
    assert Before(more[|done| - 1], more[|done|]);
    if i.end <= i.start {
      assert Instants(i) == {};
      assert Covered(more) == Covered(done);
    } else if i.start <= b {
      MergeExtends(done, i, total, a, b);
    } else {
      MergeStarts(done, i, total, a, b);
    }
  }

  lemma MergeExtends(done: seq<Interval>, i: Interval, total: int, a: int, b: int)
    requires Merged(done, total, a, b) && a <= i.start <= b && i.start < i.end && done[|done| - 1].start <= i.start
    ensures Merged(done + [i], total, a, if i.end > b then i.end else b)
  {
    var more := done + [i];
    assert more[..|done|] == done;
    var added := Interval(b, if i.end > b then i.end else b);
    InstantsSize(added);
    forall x ensures x in Covered(more) <==> x in Covered(done) || x in Instants(added) {
      assert x in Covered(more) <==> x in Covered(done) || x in Instants(i);
    }
    assert Covered(more) == Covered(done) + Instants(added);
    Disjoint(Covered(more), Covered(done), Instants(added));
  }

  lemma MergeStarts(done: seq<Interval>, i: Interval, total: int, a: int, b: int)
    requires Merged(done, total, a, b) && b < i.start < i.end && done[|done| - 1].start <= i.start
    ensures Merged(done + [i], total + b - a, i.start, i.end)
  {
    var more := done + [i];
    assert more[..|done|] == done;
    InstantsSize(i);
    Disjoint(Covered(more), Covered(done), Instants(i));
  }

  lemma Disjoint(whole: set<int>, some: set<int>, more: set<int>)
    requires some !! more && whole == some + more
    ensures |whole| == |some| + |more|
  {
  }

  method MergeSorted(sorted: seq<Interval>) returns (total: int)
    requires Sorted(sorted) && sorted != []
    ensures total == |Covered(sorted)| + Defect(sorted)
  {
    total := 0;
    var a, b := sorted[0].start, sorted[0].end;
    OneInterval(sorted[0]);
    assert sorted[..1] == [sorted[0]];
    for k := 1 to |sorted|
      invariant Merged(sorted[..k], total, a, b)
    {
      var i := sorted[k];
      assert sorted[..k + 1] == sorted[..k] + [i];
      MergeOne(sorted[..k], i, total, a, b);
      if i.end <= i.start {
        continue;
      }
      if i.start <= b {
        if i.end > b {
          b := i.end;
        }
        continue;
      }
      total := total + b - a;
      a, b := i.start, i.end;
    }
    assert sorted[..|sorted|] == sorted;
    total := total + b - a;
  }

  /**
   For every list of intervals in any order, the merge returns the number of instants that some interval
   covers, off only by the length of the first interval in the sort order if that one is inverted.
   */
  method MergedDuration(intervals: seq<Interval>) returns (total: int)
    ensures total == |Covered(intervals)| + Defect(Sort(intervals))
    ensures total == |Covered(intervals)| <==> Upright(Sort(intervals))
  {
    if |intervals| == 0 {
      return 0;
    }
    SortSorts(intervals);
    CoveredIsOrderless(Sort(intervals), intervals);
    assert |multiset(Sort(intervals))| == |multiset(intervals)|;
    total := MergeSorted(Sort(intervals));
    UprightIff(Sort(intervals));
  }

  // The first interval does not end before it starts
  predicate Upright(sorted: seq<Interval>) {
    sorted == [] || sorted[0].start <= sorted[0].end
  }

  lemma UprightIff(sorted: seq<Interval>)
    ensures Upright(sorted) <==> Defect(sorted) == 0
  {
  }

  /******* The time nobody accounts for *******/

  const UINT64 := 0x1_0000_0000_0000_0000

  type U64 = n: nat | n < UINT64 witness 0

  datatype Phase = Phase(duration: int, bytes: U64, truncated: bool, intervals: seq<Interval>)

  datatype Worker = Worker(duration: int, bytes: U64, phases: seq<Phase>)

  datatype Row = Row(position: nat, duration: int, bytes: U64)

  // An interval cut to the worker's own time, if anything is left of it
  function Clamped(i: Interval, duration: int): seq<Interval> {
    var c := Interval(if i.start < 0 then 0 else i.start, if i.end > duration then duration else i.end);
    if c.end > c.start then [c] else []
  }

  function ClampedAll(s: seq<Interval>, duration: int): seq<Interval> {
    if s == [] then [] else ClampedAll(s[..|s| - 1], duration) + Clamped(s[|s| - 1], duration)
  }

  // All intervals of the phases, in order
  function IntervalsUpTo(phases: seq<Phase>, n: nat): seq<Interval>
    requires n <= |phases|
  {
    if n == 0 then [] else IntervalsUpTo(phases, n - 1) + phases[n - 1].intervals
  }

  function IntervalsOf(phases: seq<Phase>): seq<Interval> {
    IntervalsUpTo(phases, |phases|)
  }

  predicate Recorded(phase: Phase) {
    !phase.truncated && !(phase.duration > 0 && |phase.intervals| == 0)
  }

  predicate Complete(phases: seq<Phase>) {
    forall k :: 0 <= k < |phases| ==> Recorded(phases[k])
  }

  // Addition of unsigned 64-bit integers
  function Add64(a: U64, b: U64): U64 {
    if a + b < UINT64 then a + b else a + b - UINT64
  }

  // The bytes of the phases, in 64 bits
  function BytesUpTo(phases: seq<Phase>, n: nat): U64
    requires n <= |phases|
  {
    if n == 0 then 0 else Add64(BytesUpTo(phases, n - 1), phases[n - 1].bytes)
  }

  function NamedBytes(phases: seq<Phase>): U64 {
    BytesUpTo(phases, |phases|)
  }

  function BytesSum(phases: seq<Phase>, n: nat): nat
    requires n <= |phases|
  {
    if n == 0 then 0 else BytesSum(phases, n - 1) + phases[n - 1].bytes
  }

  // The sum of the bytes wraps around at 64 bits
  lemma {:induction false} BytesWrap(phases: seq<Phase>, n: nat)
    requires n <= |phases|
    ensures BytesUpTo(phases, n) == BytesSum(phases, n) % UINT64
  {
    if n > 0 {
      BytesWrap(phases, n - 1);
      AddWraps(BytesSum(phases, n - 1), phases[n - 1].bytes);
    }
  }

  lemma AddWraps(a: nat, b: U64)
    ensures Add64(a % UINT64, b) == (a + b) % UINT64
  {
    var q := a / UINT64;
    assert a + b == q * UINT64 + (a % UINT64 + b);
    if a % UINT64 + b < UINT64 {
      Remainder64(q, a % UINT64 + b);
    } else {
      Remainder64(q + 1, a % UINT64 + b - UINT64);
    }
  }

  lemma Remainder64(q: nat, r: U64)
    ensures (q * UINT64 + r) % UINT64 == r
  {
  }

  lemma ClampedCovers(i: Interval, duration: int, x: int)
    ensures x in Covered(Clamped(i, duration)) <==> i.start <= x < i.end && 0 <= x < duration
  {
    var c := Clamped(i, duration);
    CoveredIff(c, x);
    assert c != [] ==> c[0] in c;
  }

  lemma {:induction false} ClampedAllCovers(s: seq<Interval>, duration: int, x: int)
    ensures x in Covered(ClampedAll(s, duration)) <==> x in Covered(s) && 0 <= x < duration
  {
    if s != [] {
      var n := |s| - 1;
      ClampedAllCovers(s[..n], duration, x);
      ClampedCovers(s[n], duration, x);
      CoveredConcat(ClampedAll(s[..n], duration), Clamped(s[n], duration), x);
    }
  }

  lemma CoveredConcat(s: seq<Interval>, t: seq<Interval>, x: int)
    ensures x in Covered(s + t) <==> x in Covered(s) || x in Covered(t)
  {
    CoveredIff(s, x);
    CoveredIff(t, x);
    CoveredIff(s + t, x);
    assert forall i: Interval :: i in s + t <==> i in s || i in t;
  }

  lemma {:induction false} ClampedProper(s: seq<Interval>, duration: int)
    ensures forall i :: i in ClampedAll(s, duration) ==> i.start < i.end
  {
    if s != [] { ClampedProper(s[..|s| - 1], duration); }
  }

  lemma NoDefect(s: seq<Interval>)
    requires forall i :: i in s ==> i.start < i.end
    ensures Defect(Sort(s)) == 0
  {
    SortSorts(s);
    if Sort(s) != [] {
      assert Sort(s)[0] in multiset(Sort(s));
      assert Sort(s)[0] in multiset(s);
    }
  }

  // The instants of the worker's own time that no phase covers
  function Unaccounted(w: Worker): set<int> {
    set x | 0 <= x < w.duration && x !in Covered(IntervalsOf(w.phases))
  }

  /**
   For a worker of any duration, the merged clamped intervals leave exactly the instants that no phase
   covers: covered and other time add up to the duration, and neither is negative.
   */
  lemma OtherIsUnaccounted(w: Worker)
    ensures var covered := |Covered(ClampedAll(IntervalsOf(w.phases), w.duration))|;
            if w.duration >= 0 then covered + |Unaccounted(w)| == w.duration else covered == 0 && |Unaccounted(w)| == 0
  {
    var all := ClampedAll(IntervalsOf(w.phases), w.duration);
    forall x ensures x in Covered(all) <==> x in Covered(IntervalsOf(w.phases)) && 0 <= x < w.duration {
      ClampedAllCovers(IntervalsOf(w.phases), w.duration, x);
    }
    if w.duration >= 0 {
      var own := Instants(Interval(0, w.duration));
      InstantsSize(Interval(0, w.duration));
      assert own == Covered(all) + Unaccounted(w);
    } else {
      assert Covered(all) == {} && Unaccounted(w) == {};
    }
  }

  function OtherBytes(w: Worker): U64 {
    if |Unaccounted(w)| > 0 && w.bytes > NamedBytes(w.phases) then w.bytes - NamedBytes(w.phases) else 0
  }

  // The row for a worker, if its intervals are complete and there is anything to show
  function OtherRow(w: Worker, position: nat): seq<Row> {
    if Complete(w.phases) && |Unaccounted(w)| > 0 then [Row(position, |Unaccounted(w)|, OtherBytes(w))] else []
  }

  function Rows(workers: seq<Worker>): seq<Row> {
    if workers == [] then []
    else Rows(workers[..|workers| - 1]) + OtherRow(workers[|workers| - 1], |workers| - 1)
  }

  // The row of a worker: the time that no phase covers, and the bytes that no phase names
  ghost predicate IsRow(r: Row, w: Worker, position: nat) {
    var named := BytesSum(w.phases, |w.phases|) % UINT64;
    && (forall i :: 0 <= i < |w.phases| ==>
          !w.phases[i].truncated && (w.phases[i].duration > 0 ==> w.phases[i].intervals != []))
    && r.position == position && r.duration == |Unaccounted(w)| > 0
    && r.bytes == if w.bytes > named then w.bytes - named else 0
  }

  lemma OtherRowIs(w: Worker, position: nat, r: Row)
    ensures r in OtherRow(w, position) <==> IsRow(r, w, position)
  {
    BytesWrap(w.phases, |w.phases|);
    assert Complete(w.phases) <==> forall i :: 0 <= i < |w.phases| ==>
      !w.phases[i].truncated && (w.phases[i].duration > 0 ==> w.phases[i].intervals != []);
  }

  ghost predicate HasRow(r: Row, workers: seq<Worker>) {
    exists k :: 0 <= k < |workers| && IsRow(r, workers[k], k)
  }

  // There is a row exactly for the workers that are to have one
  lemma {:induction false} RowsIff(workers: seq<Worker>, r: Row)
    ensures r in Rows(workers) <==> HasRow(r, workers)
  {
    if workers != [] {
      var n := |workers| - 1;
      RowsIff(workers[..n], r);
      OtherRowIs(workers[n], n, r);
      HasRowNext(r, workers);
    }
  }

  lemma HasRowNext(r: Row, workers: seq<Worker>)
    requires workers != []
    ensures var n := |workers| - 1; HasRow(r, workers) <==> HasRow(r, workers[..n]) || IsRow(r, workers[n], n)
  {
    var n := |workers| - 1;
    if HasRow(r, workers[..n]) {
      var k :| 0 <= k < n && IsRow(r, workers[..n][k], k);
      assert IsRow(r, workers[k], k);
    }
    if k :| 0 <= k < n && IsRow(r, workers[k], k) { assert IsRow(r, workers[..n][k], k); }
  }

  // In the order of the workers
  lemma {:induction false} RowsOrder(workers: seq<Worker>)
    ensures forall i, j :: 0 <= i < j < |Rows(workers)| ==> Rows(workers)[i].position < Rows(workers)[j].position
    ensures forall i :: 0 <= i < |Rows(workers)| ==> Rows(workers)[i].position < |workers|
  {
    if workers != [] { RowsOrder(workers[..|workers| - 1]); }
  }

  lemma {:induction false} ClampedAllConcat(s: seq<Interval>, t: seq<Interval>, duration: int)
    ensures ClampedAll(s + t, duration) == ClampedAll(s, duration) + ClampedAll(t, duration)
    decreases |t|
  {
    if t == [] {
      assert s + t == s;
    } else {
      var n := |t| - 1;
      ClampedAllConcat(s, t[..n], duration);
      assert (s + t)[..|s + t| - 1] == s + t[..n] && (s + t)[|s + t| - 1] == t[n];
      var a, b, c := ClampedAll(s, duration), ClampedAll(t[..n], duration), Clamped(t[n], duration);
      assert a + b + c == a + (b + c);
    }
  }

  // Adds the clamped intervals of one phase
  method Clamp(intervals: seq<Interval>, duration: int) returns (clamped: seq<Interval>)
    ensures clamped == ClampedAll(intervals, duration)
  {
    clamped := [];
    for l := 0 to |intervals|
      invariant clamped == ClampedAll(intervals[..l], duration)
    {
      var i := intervals[l];
      assert intervals[..l + 1][..l] == intervals[..l];
      var start := if i.start < 0 then 0 else i.start;
      var end := if i.end > duration then duration else i.end;
      if end > start {
        clamped := clamped + [Interval(start, end)];
      }
    }
    assert intervals[..|intervals|] == intervals;
  }

  method AddPhase(covered: seq<Interval>, phases: seq<Phase>, k: nat, duration: int) returns (more: seq<Interval>)
    requires k < |phases| && covered == ClampedAll(IntervalsUpTo(phases, k), duration)
    ensures more == ClampedAll(IntervalsUpTo(phases, k + 1), duration)
  {
    ClampedAllConcat(IntervalsUpTo(phases, k), phases[k].intervals, duration);
    var clamped := Clamp(phases[k].intervals, duration);
    more := covered + clamped;
  }

  // Collects the clamped intervals of one worker
  method CoveredIntervals(w: Worker) returns (covered: seq<Interval>, named: U64, complete: bool)
    ensures covered == ClampedAll(IntervalsOf(w.phases), w.duration)
    ensures named == NamedBytes(w.phases) && (complete <==> Complete(w.phases))
  {
    covered, named, complete := [], 0, true;
    for k := 0 to |w.phases|
      invariant covered == ClampedAll(IntervalsUpTo(w.phases, k), w.duration)
      invariant named == BytesUpTo(w.phases, k)
      invariant complete <==> forall l :: 0 <= l < k ==> Recorded(w.phases[l])
    {
      var phase := w.phases[k];
      named := Add64(named, phase.bytes);
      if phase.truncated || (phase.duration > 0 && |phase.intervals| == 0) {
        complete := false;
      }
      covered := AddPhase(covered, w.phases, k, w.duration);
    }
  }

  method OtherOf(w: Worker, position: nat) returns (row: seq<Row>)
    ensures row == OtherRow(w, position)
  {
    var covered, named, complete := CoveredIntervals(w);
    if !complete {
      return [];
    }
    var merged := MergedDuration(covered);
    ClampedProper(IntervalsOf(w.phases), w.duration);
    NoDefect(covered);
    OtherIsUnaccounted(w);
    var other := w.duration - merged;
    if other < 0 {
      other := 0;
    }
    var bytes := 0;
    if other > 0 && w.bytes > named {
      bytes := w.bytes - named;
    }
    if other == 0 && bytes == 0 {
      return [];
    }
    row := [Row(position, other, bytes)];
  }

  /**
   The "other" rows: one for each worker whose intervals are complete and leave time unaccounted for, and
   its duration is exactly that time.
   */
  method OtherRows(workers: seq<Worker>) returns (rows: seq<Row>)
    ensures rows == Rows(workers)
    ensures forall r :: r in rows <==> HasRow(r, workers)
    ensures forall i, j :: 0 <= i < j < |rows| ==> rows[i].position < rows[j].position
  {
    rows := [];
    for k := 0 to |workers|
      invariant rows == Rows(workers[..k])
    {
      assert workers[..k + 1][..k] == workers[..k];
      var row := OtherOf(workers[k], k);
      rows := rows + row;
    }
    assert workers[..|workers|] == workers;
    forall r ensures r in rows <==> HasRow(r, workers) { RowsIff(workers, r); }
    RowsOrder(workers);
  }
}
