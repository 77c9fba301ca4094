/** The binary searches of grid.py and the queries built on them. */
module Timeline {

  // ---------- Events ----------

  /** Event times after `sort`, no two alike. */
  ghost predicate Increasing(at: seq<real>) {
    forall i, j :: 0 <= i < j < |at| ==> at[i] < at[j]
  }

  /** The first index whose time is not before `key`. */
  ghost predicate LowerBound(at: seq<real>, key: real, i: nat) {
    i <= |at| && (forall k :: 0 <= k < i ==> at[k] < key) && (forall k :: i <= k < |at| ==> at[k] >= key)
  }

  method SearchEvents(at: seq<real>, key: real) returns (r: nat)
    requires Increasing(at)
    ensures LowerBound(at, key, r)
  {
    var l, u := 0, |at| - 1;
    while l <= u
      invariant 0 <= l <= |at| && -1 <= u < |at| && l <= u + 1
      invariant forall k :: 0 <= k < l ==> at[k] < key
      invariant forall k :: u < k < |at| ==> at[k] > key
      decreases u - l
    {
      var i := (l + u) / 2;
      if key == at[i] {
        return i;
      } else if key < at[i] {
        u := i - 1;
      } else {
        l := i + 1;
      }
    }
    return l;
  }

  /** `get_events_bounds`. */
  method GetEventsBounds(at: seq<real>, start: real, end: real) returns (s: nat, e: nat)
    requires Increasing(at)
    ensures LowerBound(at, start, s) && e > 0 && LowerBound(at, end, e - 1)
  {
    s := SearchEvents(at, start);
    var last := SearchEvents(at, end);
    e := last + 1;
  }

  /** The events of the window, in order. */
  function InWindow(at: seq<real>, start: real, end: real): seq<real> {
    if at == [] then [] else (if start <= at[0] <= end then [at[0]] else []) + InWindow(at[1..], start, end)
  }

  lemma {:induction false} WindowIsSlice(at: seq<real>, start: real, end: real, s: nat, f: nat)
    requires s <= f <= |at|
    requires forall k :: 0 <= k < |at| ==> (start <= at[k] <= end <==> s <= k < f)
    ensures InWindow(at, start, end) == at[s..f]
    decreases |at|
  {
    if at != [] {
      var s', f' := if s == 0 then 0 else s - 1, if f == 0 then 0 else f - 1;
      var rest := at[1..];
      forall k | 0 <= k < |rest| ensures start <= rest[k] <= end <==> s' <= k < f' { assert rest[k] == at[k + 1]; }
      WindowIsSlice(rest, start, end, s', f');
      SliceFront(at, s, f);
    }
  }

  /** A slice of a list, and the same slice of its tail. */
  lemma SliceFront<T>(a: seq<T>, s: nat, f: nat)
    requires a != [] && s <= f <= |a|
    ensures a[s..f] == (if s == 0 < f then [a[0]] else []) + a[1..][if s == 0 then 0 else s - 1..if f == 0 then 0 else f - 1]
  {
  }

  lemma SliceGrows<T>(a: seq<T>, s: nat, e: nat)
    requires s <= e < |a|
    ensures a[s..e + 1] == a[s..e] + [a[e]]
  {
  }

  /** The query returns the events of the window, followed by the next event unless one happens exactly at `end`
      or none is left. */
  lemma EventsReturned(at: seq<real>, start: real, end: real, s: nat, e: nat)
    requires Increasing(at) && start <= end && LowerBound(at, start, s) && LowerBound(at, end, e)
    ensures s <= e
    ensures at[s..if e < |at| then e + 1 else e] ==
            InWindow(at, start, end) + (if e < |at| && at[e] != end then [at[e]] else [])
  {
    var f := if e < |at| && at[e] == end then e + 1 else e;
    WindowIsSlice(at, start, end, s, f);
    if e < |at| && at[e] != end { SliceGrows(at, s, e); }
  }

  /** `get_events`: Python clips the upper end of the slice. */
  method GetEvents(at: seq<real>, start: real, end: real) returns (events: seq<real>)
    requires Increasing(at) && start <= end
    ensures exists e: nat :: LowerBound(at, end, e) &&
              events == InWindow(at, start, end) + (if e < |at| && at[e] != end then [at[e]] else [])
  {
    var s := SearchEvents(at, start);
    var e := SearchEvents(at, end);
    EventsReturned(at, start, end, s, e);
    events := at[s..if e < |at| then e + 1 else e];
  }

  // ---------- Ranges ----------

  datatype DataRange = DataRange(start: real, end: real)

  /** Ranges in order; one may end where the next starts. */
  ghost predicate InLine(rs: seq<DataRange>) {
    && (forall i :: 0 <= i < |rs| ==> rs[i].start <= rs[i].end)
    && (forall i, j :: 0 <= i < j < |rs| ==> rs[i].end <= rs[j].start)
  }

  predicate Contains(r: DataRange, key: real) { r.start <= key <= r.end }

  /** The binary search between `l` and `u`. */
  function Probe(rs: seq<DataRange>, key: real, l: int, u: int): (r: int)
    requires 0 <= l <= u + 1 <= |rs|
    ensures r == -1 || l <= r <= u
    decreases u - l
  {
    if l > u then -1
    else
      var i := (l + u) / 2;
      if Contains(rs[i], key) then i else if key < rs[i].start then Probe(rs, key, l, i - 1) else Probe(rs, key, i + 1, u)
  }

  function Found(rs: seq<DataRange>, key: real): (r: int)
    ensures -1 <= r < |rs|
  {
    Probe(rs, key, 0, |rs| - 1)
  }

  /** `i` is a range that holds `key`, or -1 when there is none. */
  ghost predicate Hit(rs: seq<DataRange>, key: real, i: int) {
    -1 <= i < |rs| && if i == -1 then forall k :: 0 <= k < |rs| ==> !Contains(rs[k], key) else Contains(rs[i], key)
  }

  lemma {:induction false} ProbeHits(rs: seq<DataRange>, key: real, l: int, u: int)
    requires InLine(rs) && 0 <= l <= u + 1 <= |rs|
    requires forall k :: 0 <= k < |rs| && !(l <= k <= u) ==> !Contains(rs[k], key)
    ensures Hit(rs, key, Probe(rs, key, l, u))
    decreases u - l
  {
    if l <= u {
      var i := (l + u) / 2;
      if Contains(rs[i], key) {
      } else if key < rs[i].start {
        forall k | i < k < |rs| ensures !Contains(rs[k], key) { assert rs[i].end <= rs[k].start; }
        ProbeHits(rs, key, l, i - 1);
      } else {
        forall k | 0 <= k < i ensures !Contains(rs[k], key) { assert rs[k].end <= rs[i].start; }
        ProbeHits(rs, key, i + 1, u);
      }
    }
  }

  method SearchRanges(rs: seq<DataRange>, key: real) returns (r: int)
    ensures r == Found(rs, key)
    ensures InLine(rs) ==> Hit(rs, key, r)
  {
    if InLine(rs) { ProbeHits(rs, key, 0, |rs| - 1); }
    var l, u := 0, |rs| - 1;
    while l <= u
      invariant 0 <= l <= u + 1 <= |rs|
      invariant Probe(rs, key, l, u) == Found(rs, key)
      decreases u - l
    {
      var i := (l + u) / 2;
      if key >= rs[i].start && key <= rs[i].end {
        return i;
      } else if key < rs[i].start {
        u := i - 1;
      } else {
        l := i + 1;
      }
    }
    return -1;
  }

  /** The slice `get_ranges` and `get_ranges_bounds` take, given the two search results. */
  function Slice(s: int, e: int, n: nat): (int, int) {
    if s == -1 && e == -1 then (0, 0)
    else if s == -1 then (0, e + 1)
    else if e == -1 then (s, n)
    else (s, e + 1)
  }

  function Taken(rs: seq<DataRange>, start: real, end: real): (int, int) {
    Slice(Found(rs, start), Found(rs, end), |rs|)
  }

  /** `get_ranges`; a slice that ends before it starts is empty in Python. */
  method GetRanges(rs: seq<DataRange>, start: real, end: real) returns (r: seq<DataRange>)
    ensures var (from, to) := Taken(rs, start, end); r == if from <= to then rs[from..to] else []
  {
    var s := SearchRanges(rs, start);
    var e := SearchRanges(rs, end);
    if s == -1 && e == -1 {
      return [];
    } else if s == -1 {
      return rs[0..e + 1];
    } else if e == -1 {
      return rs[s..|rs|];
    } else if s <= e + 1 {
      return rs[s..e + 1];
    }
    return [];
  }

  /** `get_ranges_bounds`. */
  method GetRangesBounds(rs: seq<DataRange>, start: real, end: real) returns (from: int, to: int)
    ensures (from, to) == Taken(rs, start, end)
  {
    var s := SearchRanges(rs, start);
    var e := SearchRanges(rs, end);
    if s == -1 && e == -1 {
      return 0, 0;
    } else if s == -1 {
      return 0, e + 1;
    } else if e == -1 {
      return s, |rs|;
    }
    return s, e + 1;
  }

  predicate Meets(r: DataRange, start: real, end: real) { r.start <= end && r.end >= start }

  /** How many ranges end before `t`, and how many start at or before it. */
  function EndBefore(rs: seq<DataRange>, t: real): (n: nat)
    ensures n <= |rs| && (forall i :: 0 <= i < n ==> rs[i].end < t) && (n < |rs| ==> rs[n].end >= t)
  {
    if rs == [] || rs[0].end >= t then 0 else 1 + EndBefore(rs[1..], t)
  }

  function StartBy(rs: seq<DataRange>, t: real): (n: nat)
    ensures n <= |rs| && (forall i :: 0 <= i < n ==> rs[i].start <= t) && (n < |rs| ==> rs[n].start > t)
  {
    if rs == [] || rs[0].start > t then 0 else 1 + StartBy(rs[1..], t)
  }

  lemma Follows(rs: seq<DataRange>, i: int, j: int)
    requires InLine(rs) && 0 <= i <= j < |rs|
    ensures rs[i].start <= rs[j].start && rs[i].end <= rs[j].end
  {
    if i < j { assert rs[i].end <= rs[j].start; }
  }

  /** The ranges that meet the window are exactly a slice. */
  lemma MeetingSlice(rs: seq<DataRange>, start: real, end: real, k: nat)
    requires InLine(rs) && k < |rs|
    ensures Meets(rs[k], start, end) <==> EndBefore(rs, start) <= k < StartBy(rs, end)
  {
    var lo, hi := EndBefore(rs, start), StartBy(rs, end);
    if lo <= k { Follows(rs, lo, k); }
    if hi <= k { Follows(rs, hi, k); }
  }

  predicate Between(from: int, k: int, to: int) { from <= k < to }

  /** Two slices have the same positions iff both are empty or their bounds are equal. */
  lemma SameSlice(lo: int, hi: int, from: int, to: int, n: nat)
    requires 0 <= lo <= n && 0 <= hi <= n && 0 <= from <= n && 0 <= to <= n
    ensures (forall k :: 0 <= k < n ==> (Between(from, k, to) <==> Between(lo, k, hi))) <==> (from >= to && lo >= hi) || (from == lo && to == hi)
  {
    if forall k :: 0 <= k < n ==> (Between(from, k, to) <==> Between(lo, k, hi)) {
      assert from < to ==> Between(from, from, to) && Between(from, to - 1, to);
      assert lo < hi ==> Between(lo, lo, hi) && Between(lo, hi - 1, hi);
    }
  }

  /** What `get_ranges` takes is exactly the ranges that meet the window iff, at each end, the search hit the outermost
      range that holds it, or missed with no range outside the window on that side; or it missed at both ends and no
      range lies inside. */
  lemma RangesExact(rs: seq<DataRange>, start: real, end: real)
    requires InLine(rs) && start <= end
    ensures var (s, e, lo, hi) := (Found(rs, start), Found(rs, end), EndBefore(rs, start), StartBy(rs, end));
            var (from, to) := Taken(rs, start, end);
            (forall k :: 0 <= k < |rs| ==> (Between(from, k, to) <==> Meets(rs[k], start, end))) <==>
            if s == -1 && e == -1 then lo >= hi
            else (if s == -1 then lo == 0 else lo == s) && (if e == -1 then hi == |rs| else hi == e + 1)
  {
    var s, e, lo, hi := Found(rs, start), Found(rs, end), EndBefore(rs, start), StartBy(rs, end);
    var (from, to) := Taken(rs, start, end);
    ProbeHits(rs, start, 0, |rs| - 1);
    ProbeHits(rs, end, 0, |rs| - 1);
    forall k | 0 <= k < |rs| ensures Meets(rs[k], start, end) <==> Between(lo, k, hi) { MeetingSlice(rs, start, end, k); }
    assert s != -1 ==> Meets(rs[s], start, end);
    hide Found, InLine, EndBefore, StartBy, Meets;
    SameSlice(lo, hi, from, to, |rs|);
  }

  lemma TouchesStart(rs: seq<DataRange>, start: real, end: real, s: nat, k: nat)
    requires InLine(rs) && k < s < |rs| && Contains(rs[s], start) && Meets(rs[k], start, end)
    ensures rs[k].end == start
  {
    assert rs[k].end <= rs[s].start;
  }

  lemma TouchesEnd(rs: seq<DataRange>, start: real, end: real, e: nat, k: nat)
    requires InLine(rs) && e < k < |rs| && Contains(rs[e], end) && Meets(rs[k], start, end)
    ensures rs[k].start == end
  {
    assert rs[e].end <= rs[k].start;
  }

  /** With at least one hit, what it leaves out only touches the window: it ends where the window starts or starts
      where the window ends. With no touching ranges that is nothing. */
  lemma OnlyTouchingMissed(rs: seq<DataRange>, start: real, end: real, k: nat)
    requires InLine(rs) && start <= end && k < |rs| && Meets(rs[k], start, end)
    requires Found(rs, start) != -1 || Found(rs, end) != -1
    ensures var (from, to) := Taken(rs, start, end);
            Between(from, k, to) || (k < from && rs[k].end == start) || (to <= k && rs[k].start == end)
  {
    var s, e := Found(rs, start), Found(rs, end);
    ProbeHits(rs, start, 0, |rs| - 1);
    ProbeHits(rs, end, 0, |rs| - 1);
    hide Found, InLine, EndBefore, StartBy;
    if s != -1 && k < s { TouchesStart(rs, start, end, s, k); }
    if e != -1 && e < k { TouchesEnd(rs, start, end, e, k); }
  }

  /** Where no range touches the next, two hits are enough. */
  lemma DisjointExact(rs: seq<DataRange>, start: real, end: real, k: nat)
    requires InLine(rs) && start <= end && k < |rs| && forall i, j :: 0 <= i < j < |rs| ==> rs[i].end < rs[j].start
    requires Found(rs, start) != -1 && Found(rs, end) != -1
    ensures var (from, to) := Taken(rs, start, end); Between(from, k, to) <==> Meets(rs[k], start, end)
  {
    var s, e := Found(rs, start), Found(rs, end);
    ProbeHits(rs, start, 0, |rs| - 1);
    ProbeHits(rs, end, 0, |rs| - 1);
    hide Found;
    if k < s { assert rs[k].end < rs[s].start; }
    if e < k { assert rs[e].end < rs[k].start; }
    if s <= k { Follows(rs, s, k); }
    if k <= e { Follows(rs, k, e); }
  }

  /** Touching ranges are missed: the window from 0 to 1 returns the first of two ranges that meet at 1. */
  lemma TouchingMissed()
    ensures var rs := [DataRange(0.0, 1.0), DataRange(1.0, 2.0)];
            InLine(rs) && Taken(rs, 0.0, 1.0) == (0, 1) && Meets(rs[1], 0.0, 1.0)
  {
  }
}
