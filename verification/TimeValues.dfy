/** `TimeValue` (timevalue.h): an ordered map from times to values, with a cursor that seeks incrementally. */
module TimeValues {

  type Entries<T> = seq<(real, T)>

  ghost predicate Ordered<T>(es: Entries<T>) {
    forall i, j :: 0 <= i < j < |es| ==> es[i].0 < es[j].0
  }

  /** How many keys are below `t`: where `std::map` puts the key `t`. */
  function Position<T>(es: Entries<T>, t: real): (p: nat)
    ensures p <= |es|
    ensures forall i :: 0 <= i < p ==> es[i].0 < t
    ensures p < |es| ==> es[p].0 >= t
  {
    if es == [] || es[0].0 >= t then 0 else 1 + Position(es[1..], t)
  }

  /** Index of the greatest key that is at most `t`, or -1. */
  ghost predicate IsFloor<T>(es: Entries<T>, t: real, i: int) {
    && -1 <= i < |es|
    && (forall k :: 0 <= k <= i ==> es[k].0 <= t)
    && (forall k :: i < k < |es| ==> es[k].0 > t)
  }

  /** The entry `getCurrent` reads: the end cursor stands for the last one. */
  function Designated<T>(es: Entries<T>, cursor: nat): int {
    if cursor == |es| then |es| - 1 else cursor
  }

  /** The loop of `setCurrentTime`, its two iterators moving together. */
  function Walk<T>(es: Entries<T>, i: nat, t: real): (c: int)
    requires i <= |es|
    decreases |es| - i
  {
    if i == |es| then i
    else if es[i].0 > t then i - 1
    else if es[i].0 == t then i
    else Walk(es, i + 1, t)
  }

  /** `setCurrentTime`. The end cursor must not be compared with `t`. */
  function Seek<T>(es: Entries<T>, cursor: nat, t: real): (c: nat)
    requires Ordered(es) && cursor <= |es| && (es == [] || t == 0.0 || cursor < |es|)
    ensures c <= |es|
  {
    if es == [] then cursor
    else if t == 0.0 || t < es[cursor].0 then 0
    else WalkFinds(es, cursor, t); Walk(es, cursor, t)
  }

  lemma {:induction false} WalkFinds<T>(es: Entries<T>, i: nat, t: real)
    requires Ordered(es) && i <= |es| && (forall k :: 0 <= k < i ==> es[k].0 < t) && ((i < |es| && es[i].0 <= t) || i > 0)
    ensures 0 <= Walk(es, i, t) <= |es| && IsFloor(es, t, Designated(es, Walk(es, i, t)))
    decreases |es| - i
  {
    if i < |es| && es[i].0 < t { WalkFinds(es, i + 1, t); }
  }

  /** A seek lands on the floor of `t` exactly when it did not fall back to the first entry, or that entry is the floor. */
  lemma SeekIsFloor<T>(es: Entries<T>, cursor: nat, t: real)
    requires Ordered(es) && es != [] && cursor <= |es| && (t == 0.0 || cursor < |es|)
    ensures IsFloor(es, t, Designated(es, Seek(es, cursor, t))) <==>
            (t != 0.0 && es[cursor].0 <= t) || (es[0].0 <= t && (|es| == 1 || t < es[1].0))
  {
    if t != 0.0 && es[cursor].0 <= t {
      WalkFinds(es, cursor, t);
    } else if |es| > 1 && t < es[1].0 {
      assert forall k :: 1 <= k < |es| ==> es[k].0 >= es[1].0;
    }
  }

  /** A seek to time 0, or to before the cursor's key, falls back to the first entry. */
  lemma SeekFallsBack<T>(es: Entries<T>, cursor: nat, t: real)
    requires Ordered(es) && es != [] && cursor <= |es| && (t == 0.0 || cursor < |es|)
    requires t == 0.0 || t < es[cursor].0
    ensures Seek(es, cursor, t) == 0 && Designated(es, Seek(es, cursor, t)) == 0
  {
  }

  /** After a step back to a non-zero time at or after the first key, repeating the call reaches the floor. */
  lemma SeekTwice<T>(es: Entries<T>, cursor: nat, t: real)
    requires Ordered(es) && es != [] && cursor < |es| && t != 0.0 && es[0].0 <= t < es[cursor].0
    ensures var c := Seek(es, cursor, t);
            c < |es| && IsFloor(es, t, Designated(es, Seek(es, c, t)))
  {
    SeekIsFloor(es, Seek(es, cursor, t), t);
  }

  /** The map with `t` set to `value`. */
  function Added<T>(es: Entries<T>, t: real, value: T): Entries<T> {
    var p := Position(es, t);
    if p < |es| && es[p].0 == t then es[p := (t, value)] else es[..p] + [(t, value)] + es[p..]
  }

  /** Where the cursor's element is after `t` has been added; iterators of a map stay on their element. */
  function CursorAfterAdd<T>(es: Entries<T>, cursor: nat, t: real): nat {
    var p := Position(es, t);
    if es == [] then 0
    else if p < |es| && es[p].0 == t then cursor
    else if p <= cursor then cursor + 1
    else cursor
  }

  lemma OverwriteKeeps<T>(es: Entries<T>, p: nat, t: real, value: T)
    requires Ordered(es) && p < |es| && es[p].0 == t
    ensures Ordered(es[p := (t, value)])
    ensures forall e :: e in es[p := (t, value)] <==> e == (t, value) || (e in es && e.0 != t)
  {
    var bs := es[p := (t, value)];
    assert bs[p] == (t, value);
    forall e ensures e in bs <==> e == (t, value) || (e in es && e.0 != t) {
      if e in es && e.0 != t {
        var i :| 0 <= i < |es| && es[i] == e;
        assert bs[i] == e;
      }
      if e in bs && e != (t, value) {
        var i :| 0 <= i < |bs| && bs[i] == e;
        assert es[i] == e;
      }
    }
  }

  lemma InsertKeepsOrder<T>(es: Entries<T>, p: nat, t: real, value: T)
    requires Ordered(es) && p <= |es| && (forall i :: 0 <= i < p ==> es[i].0 < t) && (forall i :: p <= i < |es| ==> es[i].0 > t)
    ensures Ordered(es[..p] + [(t, value)] + es[p..])
  {
    var bs := es[..p] + [(t, value)] + es[p..];
    assert forall i :: 0 <= i < p ==> bs[i] == es[i];
    assert forall i :: p < i < |bs| ==> bs[i] == es[i - 1];
  }

  lemma InsertMembers<T>(es: Entries<T>, p: nat, t: real, value: T)
    requires p <= |es| && forall i :: 0 <= i < |es| ==> es[i].0 != t
    ensures forall e :: e in es[..p] + [(t, value)] + es[p..] <==> e == (t, value) || (e in es && e.0 != t)
  {
    assert es == es[..p] + es[p..];
    forall e ensures e in es[..p] + [(t, value)] + es[p..] <==> e == (t, value) || (e in es && e.0 != t) {
      assert e in es <==> e in es[..p] || e in es[p..];
      assert e in es ==> e.0 != t;
    }
  }

  lemma AddKeepsCursor<T>(es: Entries<T>, cursor: nat, t: real, value: T)
    requires cursor <= |es|
    ensures var c := CursorAfterAdd(es, cursor, t);
            && c <= |Added(es, t, value)| && (es == [] ==> c == 0)
            && (es != [] ==> (cursor < |es| <==> c < |Added(es, t, value)|))
            && (cursor < |es| ==> Added(es, t, value)[c].0 == es[cursor].0)
  {
  }

  lemma AddKeepsEntries<T>(es: Entries<T>, t: real, value: T)
    requires Ordered(es)
    ensures Ordered(Added(es, t, value))
    ensures forall e :: e in Added(es, t, value) <==> e == (t, value) || (e in es && e.0 != t)
  {
    var p := Position(es, t);
    if p < |es| && es[p].0 == t {
      OverwriteKeeps(es, p, t, value);
    } else {
      forall i | p <= i < |es| ensures es[i].0 > t { if i > p { assert es[p].0 < es[i].0; } }
      hide Ordered;
      InsertKeepsOrder(es, p, t, value);
      InsertMembers(es, p, t, value);
    }
  }

  /** Adding keeps the order, sets `t` and no other key, and leaves the cursor on its element. */
  lemma AddKeeps<T>(es: Entries<T>, cursor: nat, t: real, value: T)
    requires Ordered(es) && cursor <= |es|
    ensures Ordered(Added(es, t, value))
    ensures forall e :: e in Added(es, t, value) <==> e == (t, value) || (e in es && e.0 != t)
    ensures var c := CursorAfterAdd(es, cursor, t);
            && c <= |Added(es, t, value)| && (es == [] ==> c == 0)
            && (es != [] ==> (cursor < |es| <==> c < |Added(es, t, value)|))
            && (cursor < |es| ==> Added(es, t, value)[c].0 == es[cursor].0)
  {
    AddKeepsEntries(es, t, value);
    AddKeepsCursor(es, cursor, t, value);
  }

  class TimeValue<T> {
    var timeValues: Entries<T>      // m_timeValues, in key order
    var currentIterator: nat        // m_currentIterator, as an index; |timeValues| is end()

    ghost predicate Valid()
      reads this
    {
      Ordered(timeValues) && (timeValues != [] ==> currentIterator <= |timeValues|)
    }

    constructor ()
      ensures Valid() && timeValues == []
    {
      timeValues := [];
    }

    method Add(t: real, value: T)
      requires Valid()
      modifies this
      ensures Valid() && timeValues == Added(old(timeValues), t, value)
      ensures currentIterator == CursorAfterAdd(old(timeValues), old(currentIterator), t)
    {
      var wasEmpty := timeValues == [];
      if !wasEmpty { AddKeeps(timeValues, currentIterator, t, value); } else { AddKeeps(timeValues, 0, t, value); }
      var p := Position(timeValues, t);
      if p < |timeValues| && timeValues[p].0 == t {
        timeValues := timeValues[p := (t, value)];
      } else {
        timeValues := timeValues[..p] + [(t, value)] + timeValues[p..];
        if p <= currentIterator { currentIterator := currentIterator + 1; }
      }
      if wasEmpty {
        currentIterator := 0;
      }
    }

    method SystemReset()
      modifies this
      ensures Valid() && timeValues == []
    {
      timeValues := [];
    }

    method GetCurrent() returns (value: T)
      requires Valid() && timeValues != []
      ensures value == timeValues[Designated(timeValues, currentIterator)].1
    {
      if currentIterator == |timeValues| {
        return timeValues[|timeValues| - 1].1;
      }
      return timeValues[currentIterator].1;
    }

    method SetCurrentTime(t: real)
      requires Valid() && (timeValues == [] || t == 0.0 || currentIterator < |timeValues|)
      modifies this
      ensures Valid() && timeValues == old(timeValues)
      ensures timeValues != [] ==> currentIterator == Seek(timeValues, old(currentIterator), t)
      ensures timeValues != [] && t != 0.0 && timeValues[old(currentIterator)].0 <= t ==>
                IsFloor(timeValues, t, Designated(timeValues, currentIterator))
    {
      if timeValues == [] {
        return;
      }
      if t == 0.0 || t < timeValues[currentIterator].0 {
        currentIterator := 0;
        return;
      }
      WalkFinds(timeValues, currentIterator, t);
      var i := currentIterator;
      while i != |timeValues|
        invariant timeValues == old(timeValues) && old(currentIterator) <= i == currentIterator <= |timeValues|
        invariant i == old(currentIterator) ==> timeValues[i].0 <= t
        invariant Walk(timeValues, i, t) == Walk(timeValues, old(currentIterator), t)
        decreases |timeValues| - i
      {
        if timeValues[i].0 > t {
          currentIterator := currentIterator - 1;
          return;
        } else if timeValues[i].0 == t {
          return;
        } else {
          currentIterator := currentIterator + 1;
        }
        i := i + 1;
      }
    }
  }
}
