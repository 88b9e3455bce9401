/** Skipping sponsored segments (lavalink/sponsorblock.rs). Times from the API are exact seconds. */
module SponsorBlock {
  import opened Common

  const U64_MAX: nat := 0xFFFF_FFFF_FFFF_FFFF

  datatype Segment = Segment(start: real, end: real, category: string) {
    function StartMs(): nat { ToMs(start) }
    function EndMs(): nat { ToMs(end) }
  }

  /** Seconds to milliseconds: rounded to the nearest, halves away from zero, then saturated to 64 unsigned bits. */
  function ToMs(seconds: real): nat {
    var rounded := (seconds * 1000.0 + 0.5).Floor;
    if rounded < 0 then 0 else if rounded > U64_MAX then U64_MAX else rounded
  }

  /** Within 64 bits a time is off by at most half a millisecond, and halves go up. */
  lemma ToMsIsNearest(seconds: real)
    requires 0.0 <= seconds * 1000.0 <= U64_MAX as real
    ensures -0.5 < ToMs(seconds) as real - seconds * 1000.0 <= 0.5
  {
  }

  // ---------------------------------------------------------------- filtering and sorting

  predicate Kept(s: Segment, categories: seq<string>, duration: Option<nat>) {
    && s.category in categories
    && s.EndMs() > s.StartMs()
    && (duration.Some? ==> s.StartMs() < duration.value)
  }

  function Keep(segments: seq<Segment>, categories: seq<string>, duration: Option<nat>): seq<Segment> {
    if segments == [] then []
    else (if Kept(segments[0], categories, duration) then [segments[0]] else []) +
         Keep(segments[1..], categories, duration)
  }

  /** Insert before the first segment that starts no earlier. */
  function Insert(s: Segment, sorted: seq<Segment>): seq<Segment> {
    if sorted == [] || s.StartMs() <= sorted[0].StartMs() then [s] + sorted
    else [sorted[0]] + Insert(s, sorted[1..])
  }

  function SortByStart(segments: seq<Segment>): seq<Segment> {
    if segments == [] then [] else Insert(segments[0], SortByStart(segments[1..]))
  }

  function FilterSegments(segments: seq<Segment>, categories: seq<string>, duration: Option<nat>): seq<Segment> {
    SortByStart(Keep(segments, categories, duration))
  }

  ghost predicate Sorted(segments: seq<Segment>) {
    forall i, j :: 0 <= i <= j < |segments| ==> segments[i].StartMs() <= segments[j].StartMs()
  }

  /** The segments that start at `t`, in order. */
  function StartingAt(segments: seq<Segment>, t: nat): seq<Segment> {
    if segments == [] then []
    else IfAt(segments[0], t) + StartingAt(segments[1..], t)
  }

  lemma {:induction false} InsertPermutes(s: Segment, sorted: seq<Segment>)
    ensures multiset(Insert(s, sorted)) == multiset(sorted) + multiset{s}
  {
    if sorted != [] && s.StartMs() > sorted[0].StartMs() {
      InsertPermutes(s, sorted[1..]);
      assert sorted == [sorted[0]] + sorted[1..];
    }
  }

  lemma {:induction false} InsertSorts(s: Segment, sorted: seq<Segment>)
    requires Sorted(sorted)
    ensures Sorted(Insert(s, sorted))
  {
    if sorted != [] && s.StartMs() > sorted[0].StartMs() {
      var rest := Insert(s, sorted[1..]);
      InsertSorts(s, sorted[1..]);
      InsertPermutes(s, sorted[1..]);
      forall k | 0 <= k < |rest| ensures sorted[0].StartMs() <= rest[k].StartMs() {
        assert rest[k] in multiset(rest);
        assert rest[k] == s || rest[k] in sorted[1..];
      }
      SortedCons(sorted[0], rest);
    } else if sorted != [] {
      SortedCons(s, sorted);
    }
  }

  lemma SortedCons(s: Segment, rest: seq<Segment>)
    requires Sorted(rest) && forall k :: 0 <= k < |rest| ==> s.StartMs() <= rest[k].StartMs()
    ensures Sorted([s] + rest)
  {
  }

  function IfAt(s: Segment, t: nat): seq<Segment> { if s.StartMs() == t then [s] else [] }

  lemma StartingAtCons(s: Segment, rest: seq<Segment>, t: nat)
    ensures StartingAt([s] + rest, t) == IfAt(s, t) + StartingAt(rest, t)
  {
    assert ([s] + rest)[1..] == rest;
  }

  lemma Apart(s: Segment, o: Segment, t: nat, rest: seq<Segment>)
    requires s.StartMs() != o.StartMs()
    ensures IfAt(o, t) + (IfAt(s, t) + rest) == IfAt(s, t) + (IfAt(o, t) + rest)
  {
  }

  lemma {:induction false} InsertIsStable(s: Segment, sorted: seq<Segment>, t: nat)
    ensures StartingAt(Insert(s, sorted), t) == IfAt(s, t) + StartingAt(sorted, t)
  {
    if sorted == [] || s.StartMs() <= sorted[0].StartMs() {
      StartingAtCons(s, sorted, t);
    } else {
      InsertIsStable(s, sorted[1..], t);
      StartingAtCons(sorted[0], Insert(s, sorted[1..]), t);
      Apart(s, sorted[0], t, StartingAt(sorted[1..], t));
    }
  }

  /** The sort puts the segments in order of their start and keeps the order of those that start together. */
  lemma {:induction false} SortIsStable(segments: seq<Segment>, t: nat)
    ensures Sorted(SortByStart(segments))
    ensures multiset(SortByStart(segments)) == multiset(segments)
    ensures StartingAt(SortByStart(segments), t) == StartingAt(segments, t)
  {
    if segments != [] {
      SortIsStable(segments[1..], t);
      InsertSorts(segments[0], SortByStart(segments[1..]));
      InsertPermutes(segments[0], SortByStart(segments[1..]));
      InsertIsStable(segments[0], SortByStart(segments[1..]), t);
      assert segments == [segments[0]] + segments[1..];
    }
  }

  lemma {:induction false} KeepIff(segments: seq<Segment>, categories: seq<string>, duration: Option<nat>, s: Segment)
    ensures multiset(Keep(segments, categories, duration))[s] ==
            if Kept(s, categories, duration) then multiset(segments)[s] else 0
  {
    if segments != [] {
      KeepIff(segments[1..], categories, duration, s);
      assert segments == [segments[0]] + segments[1..];
    }
  }

  /** What is left is sorted and is exactly the kept segments, each as often as it was given. */
  lemma FilterIsExact(segments: seq<Segment>, categories: seq<string>, duration: Option<nat>, s: Segment)
    ensures Sorted(FilterSegments(segments, categories, duration))
    ensures multiset(FilterSegments(segments, categories, duration))[s] ==
            if Kept(s, categories, duration) then multiset(segments)[s] else 0
    ensures s in FilterSegments(segments, categories, duration) <==> s in segments && Kept(s, categories, duration)
  {
    var out := FilterSegments(segments, categories, duration);
    SortIsStable(Keep(segments, categories, duration), 0);
    KeepIff(segments, categories, duration, s);
    assert s in out <==> s in multiset(out);
    assert s in segments <==> s in multiset(segments);
  }

  /** What is left, in the terms of the request: wanted, not empty, and starting before the track ends if its length is
      known; and everything of that kind is left. */
  lemma FilterKeepsWanted(segments: seq<Segment>, categories: seq<string>, duration: Option<nat>, s: Segment)
    ensures s in FilterSegments(segments, categories, duration) ==>
              s.category in categories && s.StartMs() < s.EndMs() && (duration.Some? ==> s.StartMs() < duration.value)
    ensures (s in segments && s.category in categories && s.StartMs() + 1 <= s.EndMs()
             && (duration.None? || s.StartMs() < duration.value)) ==>
              s in FilterSegments(segments, categories, duration)
  {
    FilterIsExact(segments, categories, duration, s);
  }

  // ---------------------------------------------------------------- where to skip to

  predicate Holds(s: Segment, pos: nat) { s.StartMs() <= pos < s.EndMs() }

  ghost predicate Covered(segments: seq<Segment>, pos: nat) { exists s :: s in segments && Holds(s, pos) }

  /** One pass over the segments that extends `end` over those that overlap or abut. */
  function MergedEnd(segments: seq<Segment>, end: nat): nat {
    if segments == [] then end
    else
      var o := segments[0];
      MergedEnd(segments[1..], if o.StartMs() <= end && o.EndMs() > end then o.EndMs() else end)
  }

  lemma MergedEndAppend(segments: seq<Segment>, o: Segment, end: nat)
    ensures MergedEnd(segments + [o], end) ==
            var e := MergedEnd(segments, end); if o.StartMs() <= e && o.EndMs() > e then o.EndMs() else e
  {
    if segments != [] {
      assert (segments + [o])[1..] == segments[1..] + [o];
    } else {
      assert segments + [o] == [o] && [o][1..] == [];
    }
  }

  function FirstHolding(segments: seq<Segment>, pos: nat): Option<Segment> {
    if segments == [] then None
    else if Holds(segments[0], pos) then Some(segments[0])
    else FirstHolding(segments[1..], pos)
  }

  /** The millisecond to skip to: the merged end of the first segment that holds `pos`. */
  function SkipTarget(segments: seq<Segment>, pos: nat): Option<nat> {
    match FirstHolding(segments, pos)
    case None => None
    case Some(s) => Some(MergedEnd(segments, s.EndMs()))
  }

  lemma {:induction false} FirstHoldingIff(segments: seq<Segment>, pos: nat)
    ensures var first := FirstHolding(segments, pos);
            if first.Some? then first.value in segments && Holds(first.value, pos) else !Covered(segments, pos)
  {
    if segments != [] && !Holds(segments[0], pos) {
      FirstHoldingIff(segments[1..], pos);
      assert forall s :: s in segments ==> s == segments[0] || s in segments[1..];
    }
  }

  lemma {:induction false} FirstHoldingAt(segments: seq<Segment>, pos: nat, i: nat)
    requires i <= |segments| && forall k :: 0 <= k < i ==> !Holds(segments[k], pos)
    ensures FirstHolding(segments, pos) == FirstHolding(segments[i..], pos)
  {
    if i > 0 {
      FirstHoldingAt(segments[1..], pos, i - 1);
      assert segments[1..][i - 1..] == segments[i..];
    } else {
      assert segments[0..] == segments;
    }
  }

  method SkipPosition(segments: seq<Segment>, pos: nat) returns (target: Option<nat>)
    ensures target == SkipTarget(segments, pos)
  {
    for i := 0 to |segments|
      invariant forall k :: 0 <= k < i ==> !Holds(segments[k], pos)
    {
      var s := segments[i];
      if pos >= s.StartMs() && pos < s.EndMs() {
        FirstHoldingAt(segments, pos, i);
        var end := s.EndMs();
        for j := 0 to |segments|
          invariant end == MergedEnd(segments[..j], s.EndMs())
        {
          var o := segments[j];
          assert segments[..j + 1] == segments[..j] + [o];
          MergedEndAppend(segments[..j], o, s.EndMs());
          if o.StartMs() <= end && o.EndMs() > end {
            end := o.EndMs();
          }
        }
        assert segments[..|segments|] == segments;
        return Some(end);
      }
    }
    FirstHoldingAt(segments, pos, |segments|);
    return None;
  }

  /** Everything between the start of a merge and its end is covered, in whatever order the segments are. */
  lemma {:induction false} MergeCovers(segments: seq<Segment>, end: nat, t: nat)
    ensures MergedEnd(segments, end) >= end
    ensures end <= t < MergedEnd(segments, end) ==> Covered(segments, t)
  {
    if segments != [] {
      var o := segments[0];
      var next := if o.StartMs() <= end && o.EndMs() > end then o.EndMs() else end;
      MergeCovers(segments[1..], next, t);
      if end <= t < next {
        assert o in segments && Holds(o, t);
      } else if next <= t < MergedEnd(segments, end) {
        var s :| s in segments[1..] && Holds(s, t);
        assert s in segments;
      }
    }
  }

  /** One pass is enough when the segments are sorted: none that reaches the end goes on past it. */
  lemma {:induction false} MergeStops(segments: seq<Segment>, end: nat)
    requires Sorted(segments)
    ensures forall s :: s in segments && s.StartMs() <= MergedEnd(segments, end) ==>
                        s.EndMs() <= MergedEnd(segments, end)
    ensures (segments != [] ==> segments[0].StartMs() > end) ==> MergedEnd(segments, end) == end
  {
    if segments != [] {
      var o, rest := segments[0], segments[1..];
      var next := if o.StartMs() <= end && o.EndMs() > end then o.EndMs() else end;
      MergeStops(rest, next);
      MergeCovers(rest, next, 0);
      assert forall s :: s in segments ==> s == o || s in rest;
    }
  }

  /** `target` is the least millisecond from `pos` on that no segment covers. */
  ghost predicate FirstFree(segments: seq<Segment>, pos: nat, target: nat) {
    && pos <= target && !Covered(segments, target)
    && forall t :: pos <= t < target ==> Covered(segments, t)
  }

  lemma SameCover(a: seq<Segment>, b: seq<Segment>, pos: nat)
    requires forall s :: s in a <==> s in b
    ensures Covered(a, pos) <==> Covered(b, pos)
  {
  }

  lemma FirstFreeUnique(a: seq<Segment>, b: seq<Segment>, pos: nat, x: nat, y: nat)
    requires forall s :: s in a <==> s in b
    requires FirstFree(a, pos, x) && FirstFree(b, pos, y)
    ensures x == y
  {
    SameCover(a, b, x);
    SameCover(a, b, y);
  }

  lemma MergeIsFirstFree(segments: seq<Segment>, s: Segment, pos: nat)
    requires Sorted(segments) && s in segments && Holds(s, pos)
    ensures FirstFree(segments, pos, MergedEnd(segments, s.EndMs()))
  {
    var end := MergedEnd(segments, s.EndMs());
    MergeStops(segments, s.EndMs());
    MergeCovers(segments, s.EndMs(), 0);
    forall t | pos <= t < end ensures Covered(segments, t) {
      if t < s.EndMs() {
        assert s in segments && Holds(s, t);
      } else {
        MergeCovers(segments, s.EndMs(), t);
      }
    }
  }

  /** On sorted segments there is a skip if and only if `pos` is covered, and it goes to the first free millisecond,
      from which there is no further skip. */
  lemma SkipIsFirstFree(segments: seq<Segment>, pos: nat)
    requires Sorted(segments)
    ensures SkipTarget(segments, pos).Some? <==> Covered(segments, pos)
    ensures SkipTarget(segments, pos).Some? ==>
              && FirstFree(segments, pos, SkipTarget(segments, pos).value)
              && SkipTarget(segments, SkipTarget(segments, pos).value).None?
  {
    FirstHoldingIff(segments, pos);
    var first := FirstHolding(segments, pos);
    if first.Some? {
      MergeIsFirstFree(segments, first.value, pos);
      FirstHoldingIff(segments, MergedEnd(segments, first.value.EndMs()));
    }
  }

  /** A kept one of the given segments covers `pos`. */
  ghost predicate KeptCover(segments: seq<Segment>, categories: seq<string>, duration: Option<nat>, pos: nat) {
    exists s :: s in segments && Kept(s, categories, duration) && Holds(s, pos)
  }

  lemma FilterCovers(segments: seq<Segment>, categories: seq<string>, duration: Option<nat>, pos: nat)
    ensures Covered(FilterSegments(segments, categories, duration), pos) <==>
            KeptCover(segments, categories, duration, pos)
  {
    var out := FilterSegments(segments, categories, duration);
    forall s ensures s in out <==> s in segments && Kept(s, categories, duration) {
      FilterIsExact(segments, categories, duration, s);
    }
  }

  /** For every segment list, the skip over what the filter left happens if and only if a kept segment covers `pos`,
      and goes to the least later millisecond that no kept segment covers. */
  lemma FilteredSkipIsExact(segments: seq<Segment>, categories: seq<string>, duration: Option<nat>, pos: nat)
    ensures var target := SkipTarget(FilterSegments(segments, categories, duration), pos);
            && (target.Some? <==> KeptCover(segments, categories, duration, pos))
            && (target.Some? ==>
                  && !KeptCover(segments, categories, duration, target.value)
                  && pos < target.value
                  && forall t :: pos <= t < target.value ==> KeptCover(segments, categories, duration, t))
  {
    SortIsStable(Keep(segments, categories, duration), 0);
    SkipIsFirstFree(FilterSegments(segments, categories, duration), pos);
    forall t: nat { FilterCovers(segments, categories, duration, t); }
  }

  /** The skip over the filtered segments is decided by which segments were given, not by their order. */
  lemma SkipIgnoresOrder(a: seq<Segment>, b: seq<Segment>, categories: seq<string>, duration: Option<nat>, pos: nat)
    requires forall s :: s in a <==> s in b
    ensures SkipTarget(FilterSegments(a, categories, duration), pos) ==
            SkipTarget(FilterSegments(b, categories, duration), pos)
  {
    var x, y := FilterSegments(a, categories, duration), FilterSegments(b, categories, duration);
    forall s ensures s in x <==> s in y {
      FilterIsExact(a, categories, duration, s);
      FilterIsExact(b, categories, duration, s);
    }
    SortIsStable(Keep(a, categories, duration), 0);
    SortIsStable(Keep(b, categories, duration), 0);
    SkipIsFirstFree(x, pos);
    SkipIsFirstFree(y, pos);
    SameCover(x, y, pos);
    if SkipTarget(x, pos).Some? {
      FirstFreeUnique(x, y, pos, SkipTarget(x, pos).value, SkipTarget(y, pos).value);
    }
  }

  /** Sorting matters: on unsorted segments one pass can stop at a millisecond that is still covered. */
  lemma UnsortedNeedsSecondSkip()
    ensures exists segments :: SkipTarget(segments, 0).Some? && Covered(segments, SkipTarget(segments, 0).value)
  {
    var first, second, third := Segment(0.0, 0.001, ""), Segment(0.001, 0.002, ""), Segment(0.002, 0.003, "");
    assert first.StartMs() == 0 && first.EndMs() == 1 && second.StartMs() == 1 && second.EndMs() == 2;
    assert third.StartMs() == 2 && third.EndMs() == 3;
    var segments := [first, third, second];
    assert segments[1..] == [third, second] && segments[1..][1..] == [second] && segments[1..][1..][1..] == [];
    assert MergedEnd(segments, 1) == MergedEnd([third, second], 1) == MergedEnd([second], 1) == 2;
    assert third in segments && Holds(third, 2);
    assert SkipTarget(segments, 0) == Some(2);
  }
}
