/** `StaticInformation` of print-introspected-doxygen.cc, with its fields and its in-place search. */
module Introspection {
  import opened Text
  import opened PathSearch
  import opened RecordOrder

  ghost function Elements<T>(s: seq<T>): set<T> { set x | x in s }

  /** The search resumed one position after a marked "::" sees only the text behind the marker. */
  lemma ResumeBehindMarker(done: string, todo: string)
    requires |done| >= 3 && done[|done| - 3..] == "::%"
    ensures forall k :: |done| - 2 <= k ==> (At(done + todo, "::", k) <==> |done| <= k && At(todo, "::", k - |done|))
  {
    var s := done + todo;
    assert s[|done| - 1] == done[|done| - 3..][2] == '%';
    forall k: int | |done| - 2 <= k
      ensures At(s, "::", k) <==> |done| <= k && At(todo, "::", k - |done|)
    {
      if k >= |done| {
        AtSuffix(done, todo, "::", k);
      } else if k + 2 <= |s| {
        assert s[k..k + 2][|done| - 1 - k] == '%';
      }
    }
  }

  /** Half-way through marking `s`: `done` is marked, `todo` is still plain, and `j` is the next "::". */
  ghost predicate Marking(s: string, source: string, done: string, todo: string, j: int) {
    && source == done + todo
    && MarkScopes(s, "%") == done + MarkScopes(todo, "%")
    && (j == -1 ==> forall k :: !At(todo, "::", k))
    && (j != -1 ==> |done| <= j && At(todo, "::", j - |done|) && forall k :: 0 <= k < j - |done| ==> !At(todo, "::", k))
  }

  lemma MarkingStarts(s: string)
    ensures Marking(s, s, "", s, Find(s, "::", 0))
  {
    assert "" + s == s;
    assert "" + MarkScopes(s, "%") == MarkScopes(s, "%");
  }

  /** The marked "::" joins `done`. */
  lemma MarkingMoves(s: string, source: string, done: string, todo: string, j: int) returns (done': string, todo': string)
    requires Marking(s, source, done, todo, j) && 0 <= j && j + 2 <= |source|
    ensures Splice(source, j, 2, "::%") == done' + todo' && MarkScopes(s, "%") == done' + MarkScopes(todo', "%")
    ensures |done'| == j + 3 && done'[j..] == "::%"
  {
    var i := j - |done|;
    MarkFirst(todo, "%", i);
    done', todo' := done + todo[..i] + "::%", todo[i + 2..];
    var rest := MarkScopes(todo', "%");
    assert MarkScopes(todo, "%") == todo[..i] + "::" + "%" + rest;
    assert done + (todo[..i] + "::" + "%" + rest) == done' + rest;
  }

  lemma MarkingStep(s: string, source: string, done: string, todo: string, j: int) returns (done': string, todo': string)
    requires Marking(s, source, done, todo, j) && 0 <= j && j + 2 <= |source|
    ensures var source' := Splice(source, j, 2, "::%");
            && Marking(s, source', done', todo', Find(source', "::", j + 1))
            && (Find(source', "::", j + 1) == -1 || Find(source', "::", j + 1) >= j + 3)
  {
    hide MarkScopes;
    done', todo' := MarkingMoves(s, source, done, todo, j);
    var source' := Splice(source, j, 2, "::%");
    ResumeBehindMarker(done', todo');
    var j' := Find(source', "::", j + 1);
    assert j' != -1 ==> At(source', "::", j');
    forall k | 0 <= k && (j' == -1 || k < j' - |done'|) ensures !At(todo', "::", k) {
      assert At(source', "::", |done'| + k) <==> At(todo', "::", k);
    }
  }

  lemma MarkingEnds(s: string, source: string, done: string, todo: string)
    requires Marking(s, source, done, todo, -1)
    ensures source == MarkScopes(s, "%")
  {
    MarkNone(todo, "%");
  }

  lemma SpliceSame(s: string, j: nat)
    requires At(s, "::", j)
    ensures Splice(s, j, 2, "::") == s
  {
    assert s == s[..j] + s[j..j + 2] + s[j + 2..];
  }

  /** `find_and_replace (source, "::", "::" + marker)`, editing the string in place. */
  method FindAndReplace(s: string, marker: string) returns (source: string)
    requires marker == "" || marker == "%"
    ensures source == MarkScopes(s, marker)
  {
    hide Marking;
    source := s;
    var find, replace := "::", "::" + marker;
    ghost var done, todo := "", s;
    MarkingStarts(s);
    var j := Find(source, find, 0);
    while j != -1
      invariant if marker == "" then source == s else Marking(s, source, done, todo, j)
      invariant j == -1 || (0 <= j && At(source, find, j))
      decreases if j == -1 then 0 else |source| - j
    {
      if marker == "%" {
        assert replace == "::%";
        done, todo := MarkingStep(s, source, done, todo, j);
      } else {
        assert replace == "::";
        SpliceSame(source, j);
      }
      source := Splice(source, j, |find|, replace);
      j := Find(source, find, j + 1);
    }
    if marker == "" { MarkNothing(s); } else { MarkingEnds(s, source, done, todo); }
  }

  lemma ElementsPush<T>(s: seq<T>, x: T)
    ensures Elements(s + [x]) == Elements(s) + {x}
  {
    assert forall y :: y in s + [x] <==> y in s || y == x;
  }

  class StaticInformation {
    const registry: Registry
    var output: seq<Record>              // m_output
    var currentPath: seq<string>         // m_currentPath
    var alreadyProcessed: seq<TypeId>    // m_alreadyProcessed
    var aggregates: Aggregates           // m_aggregates

    ghost predicate Valid()
      reads this`aggregates
    {
      registry.Valid() && InRange(registry, aggregates)
    }

    constructor (registry: Registry)
      requires registry.Valid()
      ensures Valid() && this.registry == registry
      ensures output == [] && currentPath == [] && alreadyProcessed == [] && aggregates == []
    {
      this.registry := registry;
      output, currentPath, alreadyProcessed, aggregates := [], [], [], [];
    }

    method RecordAggregationInfo(a: TypeId, b: TypeId)
      requires Valid() && registry.Has(a) && registry.Has(b)
      modifies this`aggregates
      ensures Valid() && aggregates == old(aggregates) + [(a, b)]
    {
      aggregates := aggregates + [(a, b)];
    }

    method GetCurrentPath() returns (path: string)
      ensures path == RenderPath(currentPath)
    {
      path := "";
      for i := 0 to |currentPath|
        invariant path == RenderPath(currentPath[..i])
      {
        path := path + "/" + currentPath[i];
        assert currentPath[..i + 1][..i] == currentPath[..i];
      }
      assert currentPath[..|currentPath|] == currentPath;
    }

    method HasAlreadyBeenProcessed(tid: TypeId) returns (found: bool)
      ensures found <==> tid in alreadyProcessed
    {
      for i := 0 to |alreadyProcessed|
        invariant tid !in alreadyProcessed[..i]
      {
        if alreadyProcessed[i] == tid { return true; }
      }
      return false;
    }

    method RecordOutput(tid: TypeId)
      modifies this`output
      ensures output == old(output) + [(tid, RenderPath(currentPath))]
    {
      var path := GetCurrentPath();
      output := output + [(tid, path)];
    }

    method ScopedName(tid: TypeId) returns (name: string)
      requires registry.Valid() && registry.Has(tid)
      ensures name == ScopedLabel(registry, tid)
    {
      name := FindAndReplace("$" + registry.marker + registry.names[tid], registry.marker);
    }

    /** The block that `DoGather` repeats for every kind of edge: push both stacks, recurse, pop both stacks. */
    method Descend(segment: string, tid: TypeId, target: TypeId)
      requires Valid() && registry.Has(tid) && registry.Has(target) && tid !in alreadyProcessed
      modifies this`output, this`currentPath, this`alreadyProcessed
      ensures currentPath == old(currentPath) && alreadyProcessed == old(alreadyProcessed)
      ensures output == old(output) +
                        Collected(registry, aggregates, target, currentPath + [segment], Elements(alreadyProcessed) + {tid})
      decreases registry.All() - Elements(alreadyProcessed), 0
    {
      ElementsPush(alreadyProcessed, tid);
      assert tid in registry.All() - Elements(alreadyProcessed) && tid !in registry.All() - (Elements(alreadyProcessed) + {tid});
      currentPath := currentPath + [segment];
      alreadyProcessed := alreadyProcessed + [tid];
      DoGather(target);
      alreadyProcessed := alreadyProcessed[..|alreadyProcessed| - 1];
      currentPath := currentPath[..|currentPath| - 1];
    }

    /** The three loops of `DoGather`, one method each; the search itself joins them. */
    method GatherAttributes(tid: TypeId)
      requires Valid() && registry.Has(tid) && tid !in alreadyProcessed
      requires Within(registry, AttributeEdges(registry.attributes[tid], registry.objectType))
      modifies this`output, this`currentPath, this`alreadyProcessed
      ensures currentPath == old(currentPath) && alreadyProcessed == old(alreadyProcessed)
      ensures output == old(output) +
                        CollectedVia(registry, aggregates, AttributeEdges(registry.attributes[tid], registry.objectType),
                                     currentPath, Elements(alreadyProcessed) + {tid})
      decreases registry.All() - Elements(alreadyProcessed), 1
    {
      var attributes := registry.attributes[tid];
      ghost var avoid := Elements(alreadyProcessed) + {tid};
      ghost var todo := AttributeEdges(attributes, registry.objectType);
      ghost var total := output + CollectedVia(registry, aggregates, todo, currentPath, avoid);
      for i := 0 to |attributes|
        invariant currentPath == old(currentPath) && alreadyProcessed == old(alreadyProcessed)
        invariant todo == AttributeEdges(attributes[i..], registry.objectType)
        invariant Within(registry, todo)
        invariant output + CollectedVia(registry, aggregates, todo, currentPath, avoid) == total
      {
        assert attributes[i..][0] == attributes[i] && attributes[i..][1..] == attributes[i + 1..];
        match attributes[i]
        case Pointer(name, pointee) =>
          if registry.objectType == pointee {
            continue;
          }
          assert todo[0] == Edge(name, pointee);
          Advance(registry, aggregates, output, todo, currentPath, avoid);
          Descend(name, tid, pointee);
          todo := todo[1..];
        case Container(name, item) =>
          assert todo[0] == Edge(name + "/[i]", item);
          Advance(registry, aggregates, output, todo, currentPath, avoid);
          Descend(name + "/[i]", tid, item);
          todo := todo[1..];
        case Plain(_) =>
      }
    }

    method GatherChildren(tid: TypeId)
      requires Valid() && registry.Has(tid) && tid !in alreadyProcessed
      requires Within(registry, ChildEdges(registry, tid, 0))
      modifies this`output, this`currentPath, this`alreadyProcessed
      ensures currentPath == old(currentPath) && alreadyProcessed == old(alreadyProcessed)
      ensures output == old(output) +
                        CollectedVia(registry, aggregates, ChildEdges(registry, tid, 0), currentPath, Elements(alreadyProcessed) + {tid})
      decreases registry.All() - Elements(alreadyProcessed), 1
    {
      ghost var avoid := Elements(alreadyProcessed) + {tid};
      ghost var todo := ChildEdges(registry, tid, 0);
      ghost var total := output + CollectedVia(registry, aggregates, todo, currentPath, avoid);
      for j := 0 to |registry.names|
        invariant currentPath == old(currentPath) && alreadyProcessed == old(alreadyProcessed)
        invariant todo == ChildEdges(registry, tid, j)
        invariant Within(registry, todo)
        invariant output + CollectedVia(registry, aggregates, todo, currentPath, avoid) == total
      {
        if (j, tid) in registry.childOf {
          var childName := ScopedName(j);
          assert todo[0] == Edge(childName, j);
          Advance(registry, aggregates, output, todo, currentPath, avoid);
          Descend(childName, tid, j);
          todo := todo[1..];
        }
      }
    }

    method GatherAggregates(tid: TypeId)
      requires Valid() && registry.Has(tid) && tid !in alreadyProcessed
      requires Within(registry, AggregateEdges(registry, aggregates, tid))
      modifies this`output, this`currentPath, this`alreadyProcessed
      ensures currentPath == old(currentPath) && alreadyProcessed == old(alreadyProcessed)
      ensures output == old(output) +
                        CollectedVia(registry, aggregates, AggregateEdges(registry, aggregates, tid),
                                     currentPath, Elements(alreadyProcessed) + {tid})
      decreases registry.All() - Elements(alreadyProcessed), 1
    {
      ghost var avoid := Elements(alreadyProcessed) + {tid};
      ghost var todo := AggregateEdges(registry, aggregates, tid);
      ghost var total := output + CollectedVia(registry, aggregates, todo, currentPath, avoid);
      for k := 0 to |aggregates|
        invariant currentPath == old(currentPath) && alreadyProcessed == old(alreadyProcessed)
        invariant todo == AggregateEdges(registry, aggregates[k..], tid)
        invariant Within(registry, todo)
        invariant output + CollectedVia(registry, aggregates, todo, currentPath, avoid) == total
      {
        assert aggregates[k..][0] == aggregates[k] && aggregates[k..][1..] == aggregates[k + 1..];
        var tmp := aggregates[k];
        if tmp.0 == tid || tmp.1 == tid {
          var other := tid;
          if tmp.0 == tid { other := tmp.1; }
          if tmp.1 == tid { other := tmp.0; }
          var name := ScopedName(other);
          assert todo[0] == Edge(name, other);
          Advance(registry, aggregates, output, todo, currentPath, avoid);
          Descend(name, tid, other);
          todo := todo[1..];
        }
      }
    }

    /** `DoGather`: leaves both stacks as it found them and appends exactly `Collected`. */
    method DoGather(tid: TypeId)
      requires Valid() && registry.Has(tid)
      modifies this`output, this`currentPath, this`alreadyProcessed
      ensures currentPath == old(currentPath) && alreadyProcessed == old(alreadyProcessed)
      ensures output == old(output) + Collected(registry, aggregates, tid, currentPath, Elements(alreadyProcessed))
      decreases registry.All() - Elements(alreadyProcessed), 2
    {
      var seen := HasAlreadyBeenProcessed(tid);
      if seen { return; }
      CollectedParts(registry, aggregates, output, tid, currentPath, Elements(alreadyProcessed));
      RecordOutput(tid);
      GatherAttributes(tid);
      GatherChildren(tid);
      GatherAggregates(tid);
    }

    /** `Gather`: search from `tid`, then sort the whole output and drop duplicates. */
    method Gather(tid: TypeId)
      requires Valid() && registry.Has(tid)
      modifies this`output, this`currentPath, this`alreadyProcessed
      ensures currentPath == old(currentPath) && alreadyProcessed == old(alreadyProcessed)
      ensures Increasing(output)
      ensures forall item :: item in output <==>
                item in old(output) ||
                exists walk :: SimpleWalk(registry, aggregates, tid, Elements(alreadyProcessed), walk) &&
                               item == RecordOf(tid, currentPath, walk)
    {
      DoGather(tid);
      SortUniqueSorts(output);
      forall item {
        CollectedIsSimpleWalks(registry, aggregates, tid, currentPath, Elements(alreadyProcessed), item);
      }
      output := SortUnique(output);
    }

    /** `Get`: the recorded paths of one type, in output order. */
    method Get(tid: TypeId) returns (paths: seq<string>)
      ensures forall p :: p in paths <==> (tid, p) in output
      ensures Increasing(output) ==> forall i, j :: 0 <= i < j < |paths| ==> StringLess(paths[i], paths[j])
    {
      paths := [];
      for i := 0 to |output|
        invariant forall p :: p in paths <==> (tid, p) in output[..i]
        invariant Increasing(output) ==> forall a, b :: 0 <= a < b < |paths| ==> StringLess(paths[a], paths[b])
      {
        var tmp := output[i];
        assert output[..i + 1] == output[..i] + [tmp];
        if tmp.0 == tid {
          if Increasing(output) {
            forall a | 0 <= a < |paths| ensures StringLess(paths[a], tmp.1) {
              assert (tid, paths[a]) in output[..i];
              var k :| 0 <= k < i && output[k] == (tid, paths[a]);
              assert Less(output[k], output[i]);
            }
          }
          paths := paths + [tmp.1];
        }
      }
      assert output[..|output|] == output;
    }
  }
}
