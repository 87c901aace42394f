/** The chunk planner: which byte ranges a run still has to fetch, given the part of the output
    already written and the chunk files an earlier run left behind. */
module Planner {
  import opened Basics

  /** An inclusive byte range, as in section 14.1.2 of RFC 9110. */
  datatype Range = Range(start: int, end: int, completed: bool, fileName: string) {
    function Size(): int { end - start + 1 }
    predicate Has(b: int) { start <= b <= end }
  }

  /** How the file of a range is called. */
  type Namer = (int, int) -> string

  // ---------- one gap ----------

  /** The chunks addRange makes for the bytes start..maxEnd: c bytes each, the last one shorter,
      and none at all for a single byte that is left over. */
  function GapRanges(start: int, maxEnd: int, c: int, name: Namer): seq<Range>
    requires c >= 1 && (c >= 2 || maxEnd <= start)
    decreases maxEnd - start
  {
    if maxEnd <= start then []
    else
      var end := Min(start + (c - 1), maxEnd);
      [Range(start, end, false, name(start, end))]
      + (if end < maxEnd then GapRanges(end + 1, maxEnd, c, name) else [])
  }

  /** A gap of len bytes loses its last byte when the length leaves remainder 1. */
  predicate LosesLast(len: int, c: int)
    requires c >= 1
  {
    len == 1 || (c >= 2 && len % c == 1)
  }

  lemma LosesLastStep(len: int, c: int)
    requires c >= 2
    ensures 2 <= len <= c ==> !LosesLast(len, c)
    ensures len > c ==> LosesLast(len, c) == LosesLast(len - c, c)
  {
    if len > c {
      ModStep(len, c);
      if len - c == 1 { assert 1 % c == 1; }
    } else if 2 <= len < c {
      assert len % c == len;
    }
  }

  // ---------- the whole plan ----------

  /** The plan for the bytes start..total-1 around the chunk files temps, in their order. */
  function PlanFrom(start: int, temps: seq<Range>, total: int, c: int, name: Namer): seq<Range>
    requires c >= 2
    decreases |temps|
  {
    if temps == [] then
      if start < total then GapRanges(start, total - 1, c, name) else []
    else
      (if temps[0].start > start then GapRanges(start, temps[0].start - 1, c, name) else [])
      + [temps[0]]
      + PlanFrom(temps[0].end + 1, temps[1..], total, c, name)
  }

  /** Chunk files that lie in order, without overlap, inside start..total-1. */
  predicate Placed(start: int, temps: seq<Range>, total: int) {
    && (forall i :: 0 <= i < |temps| ==> start <= temps[i].start < temps[i].end < total)
    && (forall i, j :: 0 <= i < j < |temps| ==> temps[i].end < temps[j].start)
  }

  predicate Covered(plan: seq<Range>, b: int) {
    exists i :: 0 <= i < |plan| && plan[i].Has(b)
  }

  /** lo..hi is a maximal run of bytes of start..total-1 that no chunk file holds. */
  ghost predicate IsGap(start: int, temps: seq<Range>, total: int, lo: int, hi: int) {
    && start <= lo <= hi < total
    && (forall b :: lo <= b <= hi ==> !Covered(temps, b))
    && (lo == start || Covered(temps, lo - 1))
    && (hi == total - 1 || Covered(temps, hi + 1))
  }

  ghost predicate Lost(start: int, temps: seq<Range>, total: int, c: int, b: int)
    requires c >= 1
  {
    exists lo :: IsGap(start, temps, total, lo, b) && LosesLast(b - lo + 1, c)
  }

  predicate Ordered(plan: seq<Range>) {
    forall i, j :: 0 <= i < j < |plan| ==> plan[i].end < plan[j].start
  }

  /** A kept chunk file, or a new chunk of 2 to c bytes, and less than c only at the end of a gap. */
  predicate GoodRange(r: Range, start: int, temps: seq<Range>, total: int, c: int, name: Namer) {
    && start <= r.start < r.end < total
    && (r in temps || (r == Range(r.start, r.end, false, name(r.start, r.end))
                       && (r.Size() == c || (r.Size() < c && EndsGap(temps, total, r.end)))))
  }

  predicate EndsGap(temps: seq<Range>, total: int, b: int) { b + 1 == total || Covered(temps, b + 1) }

  /** In file order, keeping every chunk file, adding only good chunks. */
  ghost predicate GoodPlan(plan: seq<Range>, start: int, temps: seq<Range>, total: int, c: int, name: Namer) {
    && Ordered(plan)
    && (forall i :: 0 <= i < |plan| ==> GoodRange(plan[i], start, temps, total, c, name))
    && (forall t :: t in temps ==> t in plan)
  }

  /** What is lost of a gap is lost of what is left of it after one chunk. */
  lemma LosesLastAfter(next: int, maxEnd: int, c: int)
    requires next <= maxEnd && (c >= 2 || (c == 1 && next == maxEnd))
    ensures var end := Min(next + (c - 1), maxEnd);
            LosesLast(maxEnd - next + 1, c) == if end < maxEnd then LosesLast(maxEnd - end, c) else end == next
  {
    if c >= 2 { LosesLastStep(maxEnd - next + 1, c); }
  }

  /** What one gap's chunks cover: everything but the lost last byte. */
  lemma {:induction false} GapCovers(start: int, maxEnd: int, c: int, name: Namer, b: int)
    requires c >= 2 && start <= maxEnd
    ensures Covered(GapRanges(start, maxEnd, c, name), b) <==>
            start <= b <= maxEnd && !(b == maxEnd && LosesLast(maxEnd - start + 1, c))
    decreases maxEnd - start
  {
    LosesLastAfter(start, maxEnd, c);
    if start < maxEnd {
      var end := Min(start + (c - 1), maxEnd);
      var first := Range(start, end, false, name(start, end));
      var rest := if end < maxEnd then GapRanges(end + 1, maxEnd, c, name) else [];
      assert GapRanges(start, maxEnd, c, name) == [first] + rest;
      CoveredAppend([first], rest, b);
      assert [first][0].Has(b) == (start <= b <= end);
      if end < maxEnd { GapCovers(end + 1, maxEnd, c, name, b); }
    }
  }

  lemma {:induction false} GapShape(start: int, maxEnd: int, c: int, name: Namer)
    requires c >= 2
    ensures GoodPlan(GapRanges(start, maxEnd, c, name), start, [], maxEnd + 1, c, name)
    decreases maxEnd - start
  {
    if start < maxEnd {
      var end := Min(start + (c - 1), maxEnd);
      var first := Range(start, end, false, name(start, end));
      var rest := if end < maxEnd then GapRanges(end + 1, maxEnd, c, name) else [];
      if end < maxEnd { GapShape(end + 1, maxEnd, c, name); }
      GapShapeCons(first, rest, start, maxEnd, c, name);
    }
  }

  lemma GapShapeCons(first: Range, rest: seq<Range>, start: int, maxEnd: int, c: int, name: Namer)
    requires first == Range(start, first.end, false, name(start, first.end))
    requires start < first.end <= maxEnd && (first.Size() == c || (first.Size() < c && first.end == maxEnd))
    requires GoodPlan(rest, first.end + 1, [], maxEnd + 1, c, name)
    ensures GoodPlan([first] + rest, start, [], maxEnd + 1, c, name)
  {
    var plan := [first] + rest;
    forall i | 0 <= i < |plan| ensures GoodRange(plan[i], start, [], maxEnd + 1, c, name) {
      if i > 0 { assert plan[i] == rest[i - 1]; }
    }
    forall i, j | 0 <= i < j < |plan| ensures plan[i].end < plan[j].start {
      assert plan[j] == rest[j - 1];
      assert GoodRange(rest[j - 1], first.end + 1, [], maxEnd + 1, c, name);
    }
  }

  /** The part of the plan that lies before the first chunk file. */
  function Head(start: int, temps: seq<Range>, total: int, c: int, name: Namer): seq<Range>
    requires c >= 2
  {
    var stop := if temps == [] then total else temps[0].start;
    if start < stop then GapRanges(start, stop - 1, c, name) else []
  }

  lemma CoveredAppend(p: seq<Range>, q: seq<Range>, b: int)
    ensures Covered(p + q, b) <==> Covered(p, b) || Covered(q, b)
  {
    if Covered(p, b) {
      var i :| 0 <= i < |p| && p[i].Has(b);
      assert (p + q)[i].Has(b);
    }
    if Covered(q, b) {
      var i :| 0 <= i < |q| && q[i].Has(b);
      assert (p + q)[|p| + i].Has(b);
    }
  }

  lemma PlacedTail(start: int, temps: seq<Range>, total: int)
    requires Placed(start, temps, total) && temps != []
    ensures Placed(temps[0].end + 1, temps[1..], total)
  {
    forall i | 0 <= i < |temps[1..]| ensures temps[0].end + 1 <= temps[1..][i].start {
      assert temps[1..][i] == temps[i + 1];
    }
  }

  lemma CoveredSplit(temps: seq<Range>, b: int)
    requires temps != []
    ensures Covered(temps, b) <==> temps[0].Has(b) || Covered(temps[1..], b)
  {
    CoveredAppend([temps[0]], temps[1..], b);
    assert [temps[0]] + temps[1..] == temps;
    assert [temps[0]][0].Has(b) == temps[0].Has(b);
  }

  /** Gaps behind the first chunk file are the gaps of what follows it. */
  lemma GapBehindFirst(start: int, temps: seq<Range>, total: int, lo: int, hi: int)
    requires Placed(start, temps, total) && temps != [] && lo > temps[0].end
    ensures IsGap(start, temps, total, lo, hi) <==> IsGap(temps[0].end + 1, temps[1..], total, lo, hi)
  {
    forall b ensures Covered(temps, b) <==> temps[0].Has(b) || Covered(temps[1..], b) {
      CoveredSplit(temps, b);
    }
    PlacedTail(start, temps, total);
  }

  /** The gap before the first chunk file (or the only one), if there is one. */
  lemma FirstGap(start: int, temps: seq<Range>, total: int, lo: int, hi: int)
    requires Placed(start, temps, total) && (temps == [] || lo <= temps[0].end)
    ensures var stop := if temps == [] then total else temps[0].start;
            IsGap(start, temps, total, lo, hi) <==> lo == start <= hi == stop - 1
  {
    var stop := if temps == [] then total else temps[0].start;
    forall b | b < stop ensures !Covered(temps, b) {
    }
    if temps != [] {
      forall b | temps[0].Has(b) ensures Covered(temps, b) {
      }
      assert Covered(temps, stop);
      if IsGap(start, temps, total, lo, hi) {
        assert !Covered(temps, lo);
        assert lo < stop;
        assert !(lo <= stop <= hi);
      }
    }
  }

  lemma PlanUnfold(start: int, temps: seq<Range>, total: int, c: int, name: Namer)
    requires c >= 2 && temps != []
    ensures PlanFrom(start, temps, total, c, name)
            == Head(start, temps, total, c, name) + [temps[0]] + PlanFrom(temps[0].end + 1, temps[1..], total, c, name)
  {
  }

  /** A lost byte is the last one of the first gap, or lost behind the first chunk file. */
  lemma LostSplit(start: int, temps: seq<Range>, total: int, c: int, b: int)
    requires c >= 2 && Placed(start, temps, total)
    ensures var stop := if temps == [] then total else temps[0].start;
            Lost(start, temps, total, c, b) <==>
            || (start <= b == stop - 1 && LosesLast(b - start + 1, c))
            || (temps != [] && Lost(temps[0].end + 1, temps[1..], total, c, b))
  {
    var stop := if temps == [] then total else temps[0].start;
    if start <= b == stop - 1 && LosesLast(b - start + 1, c) {
      FirstGap(start, temps, total, start, b);
    }
    if Lost(start, temps, total, c, b) {
      var lo :| IsGap(start, temps, total, lo, b) && LosesLast(b - lo + 1, c);
      if temps == [] || lo <= temps[0].end {
        FirstGap(start, temps, total, lo, b);
      } else {
        GapBehindFirst(start, temps, total, lo, b);
      }
    }
    if temps != [] && Lost(temps[0].end + 1, temps[1..], total, c, b) {
      var lo :| IsGap(temps[0].end + 1, temps[1..], total, lo, b) && LosesLast(b - lo + 1, c);
      GapBehindFirst(start, temps, total, lo, b);
    }
  }

  /** Exact coverage: the plan holds every byte of start..total-1 except the lost last byte of
      each gap whose length leaves remainder 1. */
  lemma {:induction false} PlanCovers(start: int, temps: seq<Range>, total: int, c: int, name: Namer, b: int)
    requires c >= 2 && Placed(start, temps, total)
    ensures Covered(PlanFrom(start, temps, total, c, name), b) <==>
            start <= b < total && !Lost(start, temps, total, c, b)
    decreases |temps|
  {
    if temps == [] {
      HeadCovers(start, temps, total, c, name, b);
      LostSplit(start, temps, total, c, b);
    } else {
      PlacedTail(start, temps, total);
      PlanCovers(temps[0].end + 1, temps[1..], total, c, name, b);
      PlanUnfold(start, temps, total, c, name);
      CoversStep(start, temps, total, c, name, PlanFrom(temps[0].end + 1, temps[1..], total, c, name), b);
    }
  }

  lemma CoversStep(start: int, temps: seq<Range>, total: int, c: int, name: Namer, tail: seq<Range>, b: int)
    requires c >= 2 && Placed(start, temps, total) && temps != []
    requires Covered(tail, b) <==>
             temps[0].end + 1 <= b < total && !Lost(temps[0].end + 1, temps[1..], total, c, b)
    ensures Covered(Head(start, temps, total, c, name) + [temps[0]] + tail, b) <==>
            start <= b < total && !Lost(start, temps, total, c, b)
  {
    var head := Head(start, temps, total, c, name);
    CoveredAppend(head + [temps[0]], tail, b);
    CoveredAppend(head, [temps[0]], b);
    assert [temps[0]][0].Has(b) == temps[0].Has(b);
    HeadCovers(start, temps, total, c, name, b);
    LostSplit(start, temps, total, c, b);
    LostIsInside(temps[0].end + 1, temps[1..], total, c, b);
  }

  lemma HeadCovers(start: int, temps: seq<Range>, total: int, c: int, name: Namer, b: int)
    requires c >= 2 && Placed(start, temps, total)
    ensures var stop := if temps == [] then total else temps[0].start;
            Covered(Head(start, temps, total, c, name), b) <==>
            start <= b < stop && !(b == stop - 1 && LosesLast(stop - start, c))
  {
    var stop := if temps == [] then total else temps[0].start;
    if start < stop { GapCovers(start, stop - 1, c, name, b); }
  }

  lemma LostIsInside(start: int, temps: seq<Range>, total: int, c: int, b: int)
    requires c >= 1
    ensures Lost(start, temps, total, c, b) ==> start <= b < total
  {
  }

  /** The plan is in file order, keeps every chunk file, and adds only chunks of 2 to c bytes. */
  lemma {:induction false} PlanShape(start: int, temps: seq<Range>, total: int, c: int, name: Namer)
    requires c >= 2 && Placed(start, temps, total)
    ensures GoodPlan(PlanFrom(start, temps, total, c, name), start, temps, total, c, name)
    decreases |temps|
  {
    HeadShape(start, temps, total, c, name);
    if temps == [] {
      assert PlanFrom(start, temps, total, c, name) == Head(start, temps, total, c, name);
    } else {
      PlacedTail(start, temps, total);
      PlanShape(temps[0].end + 1, temps[1..], total, c, name);
      PlanUnfold(start, temps, total, c, name);
      var tail := PlanFrom(temps[0].end + 1, temps[1..], total, c, name);
      ShapeAppend(Head(start, temps, total, c, name), tail, start, temps, total, c, name);
    }
  }

  lemma HeadShape(start: int, temps: seq<Range>, total: int, c: int, name: Namer)
    requires c >= 2 && Placed(start, temps, total)
    ensures var stop := if temps == [] then total else temps[0].start;
            GoodPlan(Head(start, temps, total, c, name), start, [], stop, c, name)
  {
    var stop := if temps == [] then total else temps[0].start;
    if start < stop { GapShape(start, stop - 1, c, name); }
  }

  lemma ShapeAppend(head: seq<Range>, tail: seq<Range>, start: int, temps: seq<Range>, total: int, c: int, name: Namer)
    requires temps != [] && start <= temps[0].start < temps[0].end < total
    requires GoodPlan(head, start, [], temps[0].start, c, name)
    requires GoodPlan(tail, temps[0].end + 1, temps[1..], total, c, name)
    ensures GoodPlan(head + [temps[0]] + tail, start, temps, total, c, name)
  {
    var first := temps[0];
    var plan := head + [first] + tail;
    var n := |head|;
    forall i | 0 <= i < |plan| ensures GoodRange(plan[i], start, temps, total, c, name) {
      if i < n {
        assert GoodRange(head[i], start, [], first.start, c, name) && first.Has(first.start);
      } else if i > n {
        assert GoodRange(tail[i - n - 1], first.end + 1, temps[1..], total, c, name);
        CoveredSplit(temps, tail[i - n - 1].end + 1);
      }
    }
    forall i, j | 0 <= i < j < |plan| ensures plan[i].end < plan[j].start {
      if i < n { assert GoodRange(head[i], start, [], first.start, c, name); }
      if j > n { assert GoodRange(tail[j - n - 1], first.end + 1, temps[1..], total, c, name); }
    }
    forall t | t in temps ensures t in plan {
      assert t == first || t in temps[1..];
      assert plan[n] == first;
    }
  }

  /** plan is a partition of start..total-1 into consecutive ranges. */
  predicate Tiles(plan: seq<Range>, start: int, total: int)
    decreases |plan|
  {
    if plan == [] then start == total
    else plan[0].start == start <= plan[0].end && Tiles(plan[1..], plan[0].end + 1, total)
  }

  lemma {:induction false} OrderedCoverTiles(plan: seq<Range>, start: int, total: int)
    requires start <= total && Ordered(plan)
    requires forall i :: 0 <= i < |plan| ==> start <= plan[i].start <= plan[i].end < total
    requires forall b :: start <= b < total ==> Covered(plan, b)
    ensures Tiles(plan, start, total)
    decreases |plan|
  {
    if start < total {
      assert Covered(plan, start);
      var k :| 0 <= k < |plan| && plan[k].Has(start);
      assert forall j :: 0 < j < |plan| ==> plan[0].start < plan[j].start;
      var next := plan[0].end + 1;
      forall i | 0 <= i < |plan[1..]| ensures next <= plan[1..][i].start { assert plan[1..][i] == plan[i + 1]; }
      forall b | next <= b < total ensures Covered(plan[1..], b) { CoveredSplit(plan, b); }
      OrderedCoverTiles(plan[1..], next, total);
    }
  }

  lemma {:induction false} TilesCover(plan: seq<Range>, start: int, total: int, b: int)
    requires Tiles(plan, start, total) && start <= b < total
    ensures Covered(plan, b)
    decreases |plan|
  {
    if plan != [] {
      CoveredSplit(plan, b);
      if b > plan[0].end { TilesCover(plan[1..], plan[0].end + 1, total, b); }
    }
  }

  ghost predicate NoLoss(start: int, temps: seq<Range>, total: int, c: int)
    requires c >= 2
  {
    forall lo, hi :: IsGap(start, temps, total, lo, hi) ==> !LosesLast(hi - lo + 1, c)
  }

  /** The plan misses nothing exactly when no gap leaves a remainder of one byte. */
  lemma PlanTilesIff(start: int, temps: seq<Range>, total: int, c: int, name: Namer)
    requires c >= 2 && start <= total && Placed(start, temps, total)
    ensures Tiles(PlanFrom(start, temps, total, c, name), start, total) <==> NoLoss(start, temps, total, c)
  {
    var plan := PlanFrom(start, temps, total, c, name);
    PlanShape(start, temps, total, c, name);
    if NoLoss(start, temps, total, c) {
      forall b | start <= b < total ensures Covered(plan, b) {
        PlanCovers(start, temps, total, c, name, b);
        LossNeedsRemainderOne(start, temps, total, c, b);
      }
      OrderedCoverTiles(plan, start, total);
    }
    if Tiles(plan, start, total) {
      forall lo, hi | IsGap(start, temps, total, lo, hi) ensures !LosesLast(hi - lo + 1, c) {
        TilesCover(plan, start, total, hi);
        PlanCovers(start, temps, total, c, name, hi);
      }
    }
  }

  lemma LossNeedsRemainderOne(start: int, temps: seq<Range>, total: int, c: int, b: int)
    requires c >= 2 && NoLoss(start, temps, total, c)
    ensures !Lost(start, temps, total, c, b)
  {
    assert forall lo :: IsGap(start, temps, total, lo, b) ==> !LosesLast(b - lo + 1, c);
  }

  /** When there is nothing to do, or one byte to fetch and nothing on disk, the plan is empty. */
  lemma PlanEmptyIff(start: int, temps: seq<Range>, total: int, c: int, name: Namer)
    requires c >= 2
    ensures PlanFrom(start, temps, total, c, name) == [] <==> temps == [] && total - start <= 1
  {
    if temps == [] && total - start > 1 {
      assert GapRanges(start, total - 1, c, name) != [];
    }
  }

  // ---------- the loop of addRange, one iteration at a time ----------

  datatype AddState = AddState(start: int, ranges: seq<Range>, stopped: bool)

  function AddStep(s: AddState, maxEnd: int, c: int, name: Namer): AddState {
    if s.stopped then s
    else
      var end := Min(s.start + (c - 1), maxEnd);
      var grown := if end != s.start then s.ranges + [Range(s.start, end, false, name(s.start, end))]
                   else s.ranges;
      AddState(if end != s.start then end + 1 else s.start, grown, end >= maxEnd)
  }

  function AddIterations(n: nat, s: AddState, maxEnd: int, c: int, name: Namer): AddState {
    if n == 0 then s else AddIterations(n - 1, AddStep(s, maxEnd, c, name), maxEnd, c, name)
  }

  lemma {:induction false} AddSpins(n: nat, s: AddState, maxEnd: int, name: Namer)
    requires !s.stopped && s.start < maxEnd
    ensures AddIterations(n, s, maxEnd, 1, name) == s
  {
    if n > 0 { AddSpins(n - 1, s, maxEnd, name); }
  }

  lemma {:induction false} AddStops(s: AddState, maxEnd: int, c: int, name: Namer) returns (n: nat)
    requires c >= 2 && s.start <= maxEnd
    ensures AddIterations(n, s, maxEnd, c, name).stopped
    decreases maxEnd - s.start
  {
    if s.stopped {
      n := 0;
    } else {
      var s' := AddStep(s, maxEnd, c, name);
      if s'.stopped {
        n := 1;
        assert AddIterations(0, s', maxEnd, c, name) == s';
      } else {
        var m := AddStops(s', maxEnd, c, name);
        n := m + 1;
      }
    }
  }

  /** addRange comes back exactly when the chunk size is at least 2 or the gap is a single byte. */
  lemma AddRangeTerminatesIff(start: int, maxEnd: int, c: int, name: Namer)
    requires c >= 1 && start <= maxEnd
    ensures (exists n :: AddIterations(n, AddState(start, [], false), maxEnd, c, name).stopped)
            <==> c >= 2 || start == maxEnd
  {
    var s := AddState(start, [], false);
    if c >= 2 {
      var n := AddStops(s, maxEnd, c, name);
    } else if start == maxEnd {
      assert AddIterations(1, s, maxEnd, c, name) == AddIterations(0, AddStep(s, maxEnd, c, name), maxEnd, c, name);
      assert AddIterations(1, s, maxEnd, c, name).stopped;
    } else {
      forall n: nat ensures !AddIterations(n, s, maxEnd, c, name).stopped { AddSpins(n, s, maxEnd, name); }
    }
  }
}
