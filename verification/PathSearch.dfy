/** `StaticInformation` of print-introspected-doxygen.cc: which configuration paths reach which type.
    `DoGather` is a recursive search that pushes and pops two stacks while it appends to one output list. */
module PathSearch {
  import opened Text

  type TypeId = nat

  datatype Attribute =
    | Pointer(name: string, pointee: TypeId)
    | Container(name: string, item: TypeId)
    | Plain(name: string)

  /** The type registry: registered types are `0 .. |names|`.
      `childOf` is the relation `IsChildOf`; `marker` is `temporaryCharacter` ("" for text, "%" for Doxygen). */
  datatype Registry = Registry(names: seq<string>, attributes: seq<seq<Attribute>>,
                               childOf: set<(TypeId, TypeId)>, objectType: TypeId, marker: string) {
    predicate Has(t: TypeId) { t < |names| }

    ghost predicate Valid() {
      && |attributes| == |names|
      && (marker == "" || marker == "%")
      && (forall t, i :: 0 <= t < |names| && 0 <= i < |attributes[t]| ==>
            match attributes[t][i]
            case Pointer(_, p) => Has(p)
            case Container(_, p) => Has(p)
            case Plain(_) => true)
    }

    ghost function All(): set<TypeId> { set t: TypeId | 0 <= t < |names| && Has(t) }
  }

  type Aggregates = seq<(TypeId, TypeId)>
  type Record = (TypeId, string)

  datatype Edge = Edge(segment: string, target: TypeId)

  ghost predicate Within(r: Registry, es: seq<Edge>) {
    forall e :: e in es ==> r.Has(e.target)
  }

  // ---------- Labels ----------

  /** `t` inserted after every "::" met in one left-to-right pass. */
  function MarkScopes(s: string, t: string): string {
    if |s| < 2 then s
    else if s[..2] == "::" then "::" + t + MarkScopes(s[2..], t)
    else [s[0]] + MarkScopes(s[1..], t)
  }

  function ScopedLabel(r: Registry, t: TypeId): string
    requires r.Has(t)
  {
    MarkScopes("$" + r.marker + r.names[t], r.marker)
  }

  lemma {:induction false} MarkFirst(s: string, t: string, j: nat)
    requires At(s, "::", j) && forall k :: 0 <= k < j ==> !At(s, "::", k)
    ensures MarkScopes(s, t) == s[..j] + "::" + t + MarkScopes(s[j + 2..], t)
  {
    if j == 0 {
      assert s[..0] == "";
    } else {
      var u := s[1..];
      assert !At(s, "::", 0) && s == [s[0]] + u;
      forall k | 0 <= k ensures At(u, "::", k) <==> At(s, "::", k + 1) { AtSuffix([s[0]], u, "::", k + 1); }
      MarkFirst(u, t, j - 1);
      MarkShift(s, t, j);
    }
  }

  lemma MarkShift(s: string, t: string, j: nat)
    requires 0 < j && j + 2 <= |s| && s[..2] != "::"
    requires MarkScopes(s[1..], t) == s[1..][..j - 1] + "::" + t + MarkScopes(s[1..][j + 1..], t)
    ensures MarkScopes(s, t) == s[..j] + "::" + t + MarkScopes(s[j + 2..], t)
  {
    var rest := MarkScopes(s[j + 2..], t);
    assert s[1..][j + 1..] == s[j + 2..];
    assert s[..j] == [s[0]] + s[1..][..j - 1];
    assert MarkScopes(s, t) == [s[0]] + MarkScopes(s[1..], t);
    hide MarkScopes;
    Associate([s[0]], s[1..][..j - 1] + "::" + t, rest);
    Associate([s[0]], s[1..][..j - 1] + "::", t);
    Associate([s[0]], s[1..][..j - 1], "::");
  }

  lemma {:induction false} MarkNone(s: string, t: string)
    requires forall k :: !At(s, "::", k)
    ensures MarkScopes(s, t) == s
  {
    if |s| >= 2 {
      assert !At(s, "::", 0);
      assert forall k :: At(s[1..], "::", k) ==> At(s, "::", k + 1);
      MarkNone(s[1..], t);
    }
  }

  lemma {:induction false} MarkNothing(s: string)
    ensures MarkScopes(s, "") == s
  {
    if |s| < 2 {
    } else if s[..2] == "::" {
      MarkNothing(s[2..]);
    } else {
      MarkNothing(s[1..]);
    }
  }

  function Without(s: string, c: char): string {
    if s == "" then "" else (if s[0] == c then "" else [s[0]]) + Without(s[1..], c)
  }

  lemma WithoutStep(s: string, c: char)
    requires s != ""
    ensures Without(s, c) == (if s[0] == c then "" else [s[0]]) + Without(s[1..], c)
  {
  }

  lemma {:induction false} WithoutAppend(a: string, b: string, c: char)
    ensures Without(a + b, c) == Without(a, c) + Without(b, c)
  {
    if a == "" {
      assert a + b == b;
    } else {
      WithoutAppend(a[1..], b, c);
      assert (a + b)[1..] == a[1..] + b;
      WithoutStep(a, c);
      WithoutStep(a + b, c);
      hide Without;
      Associate(if a[0] == c then "" else [a[0]], Without(a[1..], c), Without(b, c));
    }
  }

  lemma {:induction false} WithoutNone(s: string, c: char)
    requires c !in s
    ensures Without(s, c) == s
  {
    if s != "" {
      assert c !in s[1..];
      WithoutNone(s[1..], c);
    }
  }

  /** Marking only inserts markers. */
  lemma {:induction false} MarkScopesErased(s: string)
    ensures Without(MarkScopes(s, "%"), '%') == Without(s, '%')
  {
    if |s| < 2 {
    } else if s[..2] == "::" {
      MarkScopesErased(s[2..]);
      WithoutAppend("::" + "%", MarkScopes(s[2..], "%"), '%');
      assert s == "::" + s[2..];
      WithoutAppend("::", s[2..], '%');
      assert "::%"[1..] == ":%" && ":%"[1..] == "%" && "%"[1..] == "" && "::"[1..] == ":" && ":"[1..] == "";
      assert Without("%", '%') == "" && Without(":%", '%') == ":" && Without("::%", '%') == "::";
      assert Without(":", '%') == ":" && Without("::", '%') == "::";
    } else {
      MarkScopesErased(s[1..]);
      assert MarkScopes(s, "%")[1..] == MarkScopes(s[1..], "%");
    }
  }

  /** Without its markers a label is `$` and the type's name, in the text form and in the Doxygen form alike. */
  lemma ScopedLabelErased(r: Registry, t: TypeId)
    requires r.Has(t) && (r.marker == "" || r.marker == "%") && '%' !in r.names[t]
    ensures r.marker == "" ==> ScopedLabel(r, t) == "$" + r.names[t]
    ensures Without(ScopedLabel(r, t), '%') == "$" + r.names[t]
  {
    var s := "$" + r.marker + r.names[t];
    if r.marker == "" { MarkNothing(s); } else { MarkScopesErased(s); }
    WithoutAppend("$" + r.marker, r.names[t], '%');
    WithoutNone(r.names[t], '%');
    assert "$%"[1..] == "%" && "%"[1..] == "" && "$"[1..] == "" && Without("%", '%') == "";
    assert Without("$%", '%') == "$" && Without("$", '%') == "$";
    assert "$" + "" == "$" && "$" + "%" == "$%";
  }

  /** Doxygen sees no bare scope operator: each "::" of the result has its marker right behind it. */
  lemma {:induction false} MarkScopesGuards(s: string, k: nat)
    requires k + 1 < |MarkScopes(s, "%")| && MarkScopes(s, "%")[k] == ':' == MarkScopes(s, "%")[k + 1]
    ensures k + 2 < |MarkScopes(s, "%")| && MarkScopes(s, "%")[k + 2] == '%'
  {
    if s[..2] == "::" {
      if k > 0 { MarkScopesGuards(s[2..], k - 3); }
    } else if k > 0 {
      MarkScopesGuards(s[1..], k - 1);
    }
  }

  // ---------- The edges the search takes ----------

  function AttributeEdges(attributes: seq<Attribute>, objectType: TypeId): seq<Edge> {
    if attributes == [] then []
    else
      (match attributes[0]
       case Pointer(n, p) => if p == objectType then [] else [Edge(n, p)]
       case Container(n, p) => [Edge(n + "/[i]", p)]
       case Plain(_) => [])
      + AttributeEdges(attributes[1..], objectType)
  }

  function ChildEdges(r: Registry, t: TypeId, from: nat): seq<Edge>
    decreases |r.names| - from
  {
    if from >= |r.names| then []
    else (if (from, t) in r.childOf then [Edge(ScopedLabel(r, from), from)] else []) + ChildEdges(r, t, from + 1)
  }

  ghost predicate InRange(r: Registry, g: Aggregates) {
    forall i :: 0 <= i < |g| ==> r.Has(g[i].0) && r.Has(g[i].1)
  }

  function Other(pair: (TypeId, TypeId), t: TypeId): TypeId {
    if pair.1 == t then pair.0 else pair.1
  }

  function AggregateEdges(r: Registry, g: Aggregates, t: TypeId): seq<Edge>
    requires InRange(r, g)
  {
    if g == [] then []
    else
      (if g[0].0 == t || g[0].1 == t then [Edge(ScopedLabel(r, Other(g[0], t)), Other(g[0], t))] else [])
      + AggregateEdges(r, g[1..], t)
  }

  /** The four kinds of edge leaving `t`, in the order the search takes them. */
  function Edges(r: Registry, g: Aggregates, t: TypeId): seq<Edge>
    requires r.Valid() && r.Has(t) && InRange(r, g)
  {
    AttributeEdges(r.attributes[t], r.objectType) + ChildEdges(r, t, 0) + AggregateEdges(r, g, t)
  }

  lemma {:induction false} AttributeEdgesInRange(r: Registry, attributes: seq<Attribute>)
    requires forall i :: 0 <= i < |attributes| ==>
               match attributes[i] case Pointer(_, p) => r.Has(p) case Container(_, p) => r.Has(p) case Plain(_) => true
    ensures Within(r, AttributeEdges(attributes, r.objectType))
  {
    if attributes != [] {
      assert match attributes[0] case Pointer(_, p) => r.Has(p) case Container(_, p) => r.Has(p) case Plain(_) => true;
      AttributeEdgesInRange(r, attributes[1..]);
    }
  }

  lemma ChildEdgesInRange(r: Registry, t: TypeId, from: nat)
    ensures Within(r, ChildEdges(r, t, from))
    decreases |r.names| - from
  {
  }

  lemma AggregateEdgesInRange(r: Registry, g: Aggregates, t: TypeId)
    requires InRange(r, g)
    ensures Within(r, AggregateEdges(r, g, t))
  {
  }

  lemma EdgesInRange(r: Registry, g: Aggregates, t: TypeId)
    requires r.Valid() && r.Has(t) && InRange(r, g)
    ensures Within(r, Edges(r, g, t))
  {
    AttributeEdgesInRange(r, r.attributes[t]);
    ChildEdgesInRange(r, t, 0);
    AggregateEdgesInRange(r, g, t);
  }

  // ---------- Which edges there are ----------

  /** The label of a child or an aggregate: `$`, the marker, and the name with its scope operators marked. */
  function Label(r: Registry, t: TypeId): string
    requires r.Has(t)
  {
    "$" + r.marker + MarkScopes(r.names[t], r.marker)
  }

  ghost predicate PointerEdge(r: Registry, t: TypeId, e: Edge)
    requires r.Valid() && r.Has(t)
  {
    e.target != r.objectType && Pointer(e.segment, e.target) in r.attributes[t]
  }

  ghost predicate ContainerEdge(r: Registry, t: TypeId, e: Edge)
    requires r.Valid() && r.Has(t)
  {
    exists n :: Container(n, e.target) in r.attributes[t] && e.segment == n + "/[i]"
  }

  ghost predicate ChildEdge(r: Registry, t: TypeId, e: Edge) {
    r.Has(e.target) && (e.target, t) in r.childOf && e.segment == Label(r, e.target)
  }

  ghost predicate AggregateEdge(r: Registry, g: Aggregates, t: TypeId, e: Edge) {
    r.Has(e.target) && ((t, e.target) in g || (e.target, t) in g) && e.segment == Label(r, e.target)
  }

  /** The edges of the configuration graph: through an attribute that points to something more specific than an object,
      through any element of a container attribute, from a type to its children, and both ways across an aggregation. */
  ghost predicate IsEdge(r: Registry, g: Aggregates, t: TypeId, e: Edge)
    requires r.Valid() && r.Has(t)
  {
    PointerEdge(r, t, e) || ContainerEdge(r, t, e) || ChildEdge(r, t, e) || AggregateEdge(r, g, t, e)
  }

  lemma MarkSkip(c: char, s: string, t: string)
    requires c != ':'
    ensures MarkScopes([c] + s, t) == [c] + MarkScopes(s, t)
  {
    assert ([c] + s)[1..] == s;
    if s != "" { assert ([c] + s)[..2][0] == c; }
  }

  lemma ScopedLabelIs(r: Registry, t: TypeId)
    requires r.Has(t) && (r.marker == "" || r.marker == "%")
    ensures ScopedLabel(r, t) == Label(r, t)
  {
    var n := r.names[t];
    if r.marker == "" {
      MarkNothing("$" + "" + n);
      MarkNothing(n);
    } else {
      MarkSkip('%', n, "%");
      MarkSkip('$', "%" + n, "%");
      assert "$" + "%" + n == ['$'] + (['%'] + n);
      Associate("$", "%", MarkScopes(n, "%"));
    }
  }

  lemma {:induction false} AttributeEdgesExact(attributes: seq<Attribute>, objectType: TypeId, e: Edge)
    ensures e in AttributeEdges(attributes, objectType) <==>
            (e.target != objectType && Pointer(e.segment, e.target) in attributes) ||
            exists n :: Container(n, e.target) in attributes && e.segment == n + "/[i]"
  {
    if attributes != [] {
      var rest := attributes[1..];
      AttributeEdgesExact(rest, objectType, e);
      assert forall a :: a in attributes <==> a == attributes[0] || a in rest;
      hide AttributeEdges;
      AttributeEdgesStep(attributes, objectType, e);
      if n :| Container(n, e.target) in attributes && e.segment == n + "/[i]" {
        assert Container(n, e.target) == attributes[0] || Container(n, e.target) in rest;
      }
    }
  }

  lemma AttributeEdgesStep(attributes: seq<Attribute>, objectType: TypeId, e: Edge)
    requires attributes != []
    ensures e in AttributeEdges(attributes, objectType) <==>
            (match attributes[0]
             case Pointer(n, p) => p != objectType && e == Edge(n, p)
             case Container(n, p) => e == Edge(n + "/[i]", p)
             case Plain(_) => false) || e in AttributeEdges(attributes[1..], objectType)
  {
  }

  lemma {:induction false} ChildEdgesExact(r: Registry, t: TypeId, from: nat, e: Edge)
    requires from <= |r.names| && (r.marker == "" || r.marker == "%")
    ensures e in ChildEdges(r, t, from) <==> from <= e.target && ChildEdge(r, t, e)
    decreases |r.names| - from
  {
    if from < |r.names| {
      ScopedLabelIs(r, from);
      ChildEdgesExact(r, t, from + 1, e);
      hide ScopedLabel, Label;
    }
  }

  lemma {:induction false} AggregateEdgesExact(r: Registry, g: Aggregates, t: TypeId, e: Edge)
    requires InRange(r, g) && (r.marker == "" || r.marker == "%")
    ensures e in AggregateEdges(r, g, t) <==> AggregateEdge(r, g, t, e)
  {
    if g != [] {
      ScopedLabelIs(r, Other(g[0], t));
      AggregateEdgesExact(r, g[1..], t, e);
      assert forall p :: p in g <==> p == g[0] || p in g[1..];
      hide ScopedLabel, Label;
    }
  }

  /** The edges the search takes are exactly those of the graph. */
  lemma EdgesExact(r: Registry, g: Aggregates, t: TypeId, e: Edge)
    requires r.Valid() && r.Has(t) && InRange(r, g)
    ensures e in Edges(r, g, t) <==> IsEdge(r, g, t, e)
  {
    AttributeEdgesExact(r.attributes[t], r.objectType, e);
    ChildEdgesExact(r, t, 0, e);
    AggregateEdgesExact(r, g, t, e);
    hide AttributeEdges, ChildEdges, AggregateEdges, ChildEdge, AggregateEdge;
  }

  // ---------- Walks: the declarative reading ----------

  function NodeAt(start: TypeId, walk: seq<Edge>, i: nat): TypeId
    requires i <= |walk|
  {
    if i == 0 then start else walk[i - 1].target
  }

  /** A walk from `start` along real edges that repeats no type and meets none of `avoid`. */
  ghost predicate SimpleWalk(r: Registry, g: Aggregates, start: TypeId, avoid: set<TypeId>, walk: seq<Edge>)
    requires r.Valid() && InRange(r, g)
  {
    && (forall i :: 0 <= i <= |walk| ==> r.Has(NodeAt(start, walk, i)) && NodeAt(start, walk, i) !in avoid)
    && (forall i :: 0 <= i < |walk| ==> IsEdge(r, g, NodeAt(start, walk, i), walk[i]))
    && (forall i, j :: 0 <= i < j <= |walk| ==> NodeAt(start, walk, i) != NodeAt(start, walk, j))
  }

  function Segments(walk: seq<Edge>): seq<string> {
    seq(|walk|, i requires 0 <= i < |walk| => walk[i].segment)
  }

  function RenderPath(path: seq<string>): string {
    if path == [] then "" else RenderPath(path[..|path| - 1]) + "/" + path[|path| - 1]
  }

  /** A path is rendered segment by segment, each behind a slash. */
  lemma {:induction false} RenderPathAppend(a: seq<string>, b: seq<string>)
    ensures RenderPath(a + b) == RenderPath(a) + RenderPath(b)
    decreases |b|
  {
    if b == [] {
      assert a + b == a;
    } else {
      var last := |b| - 1;
      assert (a + b)[..|a + b| - 1] == a + b[..last];
      RenderPathAppend(a, b[..last]);
      Associate(RenderPath(a), RenderPath(b[..last]), "/" + b[last]);
      Associate(RenderPath(a) + RenderPath(b[..last]), "/", b[last]);
      Associate(RenderPath(b[..last]), "/", b[last]);
    }
  }

  lemma RenderPathOne(s: string)
    ensures RenderPath([s]) == "/" + s && RenderPath([]) == ""
  {
    assert [s][..0] == [];
    assert RenderPath([s]) == "" + "/" + s;
  }

  ghost function RecordOf(start: TypeId, path: seq<string>, walk: seq<Edge>): Record {
    (NodeAt(start, walk, |walk|), RenderPath(path + Segments(walk)))
  }

  // ---------- What the recursion appends ----------

  ghost function Collected(r: Registry, g: Aggregates, t: TypeId, path: seq<string>, avoid: set<TypeId>): seq<Record>
    requires r.Valid() && r.Has(t) && InRange(r, g)
    decreases r.All() - avoid, 0
  {
    if t in avoid then []
    else
      EdgesInRange(r, g, t);
      assert t in r.All() - avoid && t !in r.All() - (avoid + {t});
      [(t, RenderPath(path))] + CollectedVia(r, g, Edges(r, g, t), path, avoid + {t})
  }

  ghost function CollectedVia(r: Registry, g: Aggregates, es: seq<Edge>, path: seq<string>, avoid: set<TypeId>): seq<Record>
    requires r.Valid() && InRange(r, g) && Within(r, es)
    decreases r.All() - avoid, |es|
  {
    if es == [] then []
    else Collected(r, g, es[0].target, path + [es[0].segment], avoid) + CollectedVia(r, g, es[1..], path, avoid)
  }

  lemma {:induction false} ViaAppend(r: Registry, g: Aggregates, a: seq<Edge>, b: seq<Edge>, path: seq<string>, avoid: set<TypeId>)
    requires r.Valid() && InRange(r, g) && Within(r, a + b)
    ensures Within(r, a) && Within(r, b)
    ensures CollectedVia(r, g, a + b, path, avoid) == CollectedVia(r, g, a, path, avoid) + CollectedVia(r, g, b, path, avoid)
  {
    assert forall e :: e in a || e in b ==> e in a + b;
    if a == [] {
      assert a + b == b;
    } else {
      assert (a + b)[1..] == a[1..] + b;
      ViaAppend(r, g, a[1..], b, path, avoid);
    }
  }

  /** One turn of an edge loop: what is out plus what is still to come stays the same. */
  lemma Advance(r: Registry, g: Aggregates, out: seq<Record>, todo: seq<Edge>, path: seq<string>, avoid: set<TypeId>)
    requires r.Valid() && InRange(r, g) && Within(r, todo) && todo != []
    ensures r.Has(todo[0].target) && Within(r, todo[1..])
    ensures out + Collected(r, g, todo[0].target, path + [todo[0].segment], avoid) + CollectedVia(r, g, todo[1..], path, avoid) ==
            out + CollectedVia(r, g, todo, path, avoid)
  {
    assert todo[0] in todo && forall e :: e in todo[1..] ==> e in todo;
  }

  lemma CollectedParts(r: Registry, g: Aggregates, out: seq<Record>, t: TypeId, path: seq<string>, avoid: set<TypeId>)
    requires r.Valid() && r.Has(t) && InRange(r, g) && t !in avoid
    ensures Within(r, AttributeEdges(r.attributes[t], r.objectType))
    ensures Within(r, ChildEdges(r, t, 0)) && Within(r, AggregateEdges(r, g, t))
    ensures out + Collected(r, g, t, path, avoid) ==
            out + [(t, RenderPath(path))]
            + CollectedVia(r, g, AttributeEdges(r.attributes[t], r.objectType), path, avoid + {t})
            + CollectedVia(r, g, ChildEdges(r, t, 0), path, avoid + {t})
            + CollectedVia(r, g, AggregateEdges(r, g, t), path, avoid + {t})
  {
    EdgesInRange(r, g, t);
    var a, c := AttributeEdges(r.attributes[t], r.objectType), ChildEdges(r, t, 0);
    ViaAppend(r, g, a + c, AggregateEdges(r, g, t), path, avoid + {t});
    ViaAppend(r, g, a, c, path, avoid + {t});
    Regroup(out, [(t, RenderPath(path))], CollectedVia(r, g, a, path, avoid + {t}), CollectedVia(r, g, c, path, avoid + {t}),
            CollectedVia(r, g, AggregateEdges(r, g, t), path, avoid + {t}));
  }

  lemma Regroup<T>(a: seq<T>, b: seq<T>, c: seq<T>, d: seq<T>, e: seq<T>)
    ensures a + (b + ((c + d) + e)) == a + b + c + d + e
  {
  }

  lemma {:induction false} ViaMember(r: Registry, g: Aggregates, es: seq<Edge>, path: seq<string>, avoid: set<TypeId>, item: Record)
    requires r.Valid() && InRange(r, g) && Within(r, es)
    ensures item in CollectedVia(r, g, es, path, avoid) <==>
            exists e :: e in es && item in Collected(r, g, e.target, path + [e.segment], avoid)
  {
    if es != [] { ViaMember(r, g, es[1..], path, avoid, item); }
  }

  lemma ShiftNodes(t: TypeId, e: Edge, tail: seq<Edge>)
    ensures forall i :: 0 <= i <= |tail| ==> NodeAt(e.target, tail, i) == NodeAt(t, [e] + tail, i + 1)
    ensures forall i :: 1 <= i <= |tail| + 1 ==> NodeAt(t, [e] + tail, i) == NodeAt(e.target, tail, i - 1)
  {
  }

  lemma WalkExtends(r: Registry, g: Aggregates, t: TypeId, avoid: set<TypeId>, e: Edge, tail: seq<Edge>)
    requires r.Valid() && r.Has(t) && InRange(r, g) && t !in avoid
    requires IsEdge(r, g, t, e) && SimpleWalk(r, g, e.target, avoid + {t}, tail)
    ensures SimpleWalk(r, g, t, avoid, [e] + tail)
  {
    hide IsEdge;
    var walk := [e] + tail;
    ShiftNodes(t, e, tail);
    forall i | 1 <= i <= |walk|
      ensures r.Has(NodeAt(t, walk, i)) && NodeAt(t, walk, i) !in avoid && NodeAt(t, walk, i) != t
    {
      assert NodeAt(t, walk, i) == NodeAt(e.target, tail, i - 1);
    }
    forall i | 0 <= i < |walk| ensures IsEdge(r, g, NodeAt(t, walk, i), walk[i]) {
      if i > 0 {
        assert walk[i] == tail[i - 1];
      }
    }
  }

  lemma WalkShrinks(r: Registry, g: Aggregates, t: TypeId, avoid: set<TypeId>, e: Edge, tail: seq<Edge>)
    requires r.Valid() && InRange(r, g) && SimpleWalk(r, g, t, avoid, [e] + tail)
    ensures r.Has(t) && t !in avoid && IsEdge(r, g, t, e) && r.Has(e.target)
    ensures SimpleWalk(r, g, e.target, avoid + {t}, tail)
  {
    hide IsEdge, InRange;
    var walk := [e] + tail;
    ShiftNodes(t, e, tail);
    assert NodeAt(t, walk, 0) == t && walk[0] == e && NodeAt(t, walk, 1) == e.target;
    forall i | 0 <= i <= |tail|
      ensures r.Has(NodeAt(e.target, tail, i)) && NodeAt(e.target, tail, i) !in avoid + {t}
    {
      assert NodeAt(t, walk, i + 1) != NodeAt(t, walk, 0);
    }
    forall i | 0 <= i < |tail| ensures IsEdge(r, g, NodeAt(e.target, tail, i), tail[i]) {
      assert walk[i + 1] == tail[i] && NodeAt(t, walk, i + 1) == NodeAt(e.target, tail, i);
    }
    TailDistinct(t, e, tail);
    hide NodeAt;
  }

  lemma TailDistinct(t: TypeId, e: Edge, tail: seq<Edge>)
    requires forall i, j :: 0 <= i < j <= |tail| + 1 ==> NodeAt(t, [e] + tail, i) != NodeAt(t, [e] + tail, j)
    ensures forall i, j :: 0 <= i < j <= |tail| ==> NodeAt(e.target, tail, i) != NodeAt(e.target, tail, j)
  {
    ShiftNodes(t, e, tail);
    forall i, j | 0 <= i < j <= |tail| ensures NodeAt(e.target, tail, i) != NodeAt(e.target, tail, j) {
      assert NodeAt(t, [e] + tail, i + 1) != NodeAt(t, [e] + tail, j + 1);
    }
  }

  lemma RecordShift(t: TypeId, path: seq<string>, e: Edge, tail: seq<Edge>)
    ensures RecordOf(t, path, [e] + tail) == RecordOf(e.target, path + [e.segment], tail)
  {
    assert path + Segments([e] + tail) == path + [e.segment] + Segments(tail);
  }

  lemma CollectedUnfold(r: Registry, g: Aggregates, t: TypeId, path: seq<string>, avoid: set<TypeId>, item: Record)
    requires r.Valid() && r.Has(t) && InRange(r, g)
    ensures item in Collected(r, g, t, path, avoid) <==>
            t !in avoid &&
            (item == (t, RenderPath(path)) ||
             exists e: Edge :: r.Has(e.target) && IsEdge(r, g, t, e) && item in Collected(r, g, e.target, path + [e.segment], avoid + {t}))
  {
    EdgesInRange(r, g, t);
    if t !in avoid {
      ViaMember(r, g, Edges(r, g, t), path, avoid + {t}, item);
      forall e ensures e in Edges(r, g, t) <==> IsEdge(r, g, t, e) { EdgesExact(r, g, t, e); }
      hide Edges, IsEdge;
    }
  }

  lemma {:induction false} WalkOfRecord(r: Registry, g: Aggregates, t: TypeId, path: seq<string>, avoid: set<TypeId>, item: Record)
      returns (walk: seq<Edge>)
    requires r.Valid() && r.Has(t) && InRange(r, g)
    requires item in Collected(r, g, t, path, avoid)
    ensures SimpleWalk(r, g, t, avoid, walk) && item == RecordOf(t, path, walk)
    decreases r.All() - avoid
  {
    hide IsEdge, Collected, RenderPath;
    CollectedUnfold(r, g, t, path, avoid, item);
    if item == (t, RenderPath(path)) {
      walk := [];
      assert path + Segments([]) == path;
    } else {
      assert t in r.All() - avoid && t !in r.All() - (avoid + {t});
      var e: Edge :| r.Has(e.target) && IsEdge(r, g, t, e) && item in Collected(r, g, e.target, path + [e.segment], avoid + {t});
      var tail := WalkOfRecord(r, g, e.target, path + [e.segment], avoid + {t}, item);
      walk := [e] + tail;
      WalkExtends(r, g, t, avoid, e, tail);
      RecordShift(t, path, e, tail);
    }
  }

  lemma {:induction false} RecordOfWalk(r: Registry, g: Aggregates, t: TypeId, path: seq<string>, avoid: set<TypeId>, walk: seq<Edge>)
    requires r.Valid() && r.Has(t) && InRange(r, g) && SimpleWalk(r, g, t, avoid, walk)
    ensures RecordOf(t, path, walk) in Collected(r, g, t, path, avoid)
    decreases |walk|
  {
    hide IsEdge, Collected, RenderPath;
    assert t == NodeAt(t, walk, 0);
    CollectedUnfold(r, g, t, path, avoid, RecordOf(t, path, walk));
    if walk == [] {
      assert path + Segments(walk) == path;
    } else {
      var e, tail := walk[0], walk[1..];
      assert walk == [e] + tail;
      WalkShrinks(r, g, t, avoid, e, tail);
      RecordOfWalk(r, g, e.target, path + [e.segment], avoid + {t}, tail);
      RecordShift(t, path, e, tail);
    }
  }

  /** What one search appends: exactly one record shape for every simple walk, and nothing else. */
  lemma CollectedIsSimpleWalks(r: Registry, g: Aggregates, t: TypeId, path: seq<string>, avoid: set<TypeId>, item: Record)
    requires r.Valid() && r.Has(t) && InRange(r, g)
    ensures item in Collected(r, g, t, path, avoid) <==>
            exists walk :: SimpleWalk(r, g, t, avoid, walk) && item == RecordOf(t, path, walk)
  {
    if item in Collected(r, g, t, path, avoid) {
      var walk := WalkOfRecord(r, g, t, path, avoid, item);
    }
    forall walk | SimpleWalk(r, g, t, avoid, walk) && item == RecordOf(t, path, walk)
      ensures item in Collected(r, g, t, path, avoid)
    {
      RecordOfWalk(r, g, t, path, avoid, walk);
    }
  }
}
