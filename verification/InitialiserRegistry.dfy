/** The register / reference / sweep protocol of handle_global.cc for initialisers of extern globals. */
module InitialiserRegistry {

  /** An AST node; the sweep empties its text. */
  class Node {
    var buf: string    // s_buf
    constructor (text: string)
      ensures buf == text
    {
      buf := text;
    }
  }

  datatype Event = Registered(iden: string, node: Node) | Referenced(iden: string)

  type Pending = map<string, seq<Node>>

  /** `iden` is mentioned somewhere in `events[from..]`. */
  ghost predicate ReferencedFrom(events: seq<Event>, from: int, iden: string) {
    exists j :: 0 <= j && from <= j < |events| && events[j] == Referenced(iden)
  }

  /** Event `i` registered `node`, and its identifier is not referenced later. */
  ghost predicate UnreferencedAt(events: seq<Event>, i: int, node: Node) {
    0 <= i < |events| && events[i].Registered? && events[i].node == node && !ReferencedFrom(events, i + 1, events[i].iden)
  }

  ghost predicate Unreferenced(events: seq<Event>, node: Node) {
    exists i :: UnreferencedAt(events, i, node)
  }

  function Applied(pending: Pending, e: Event): Pending {
    match e
    case Registered(iden, node) => pending[iden := (if iden in pending then pending[iden] else []) + [node]]
    case Referenced(iden) => pending - {iden}
  }

  /** The map after a run of events. */
  ghost function Replay(events: seq<Event>): Pending {
    if events == [] then map[] else Applied(Replay(events[..|events| - 1]), events[|events| - 1])
  }

  ghost predicate Holds(pending: Pending, iden: string, node: Node) { iden in pending && node in pending[iden] }

  ghost predicate Waiting(events: seq<Event>, iden: string, node: Node) {
    exists i :: UnreferencedAt(events, i, node) && events[i].iden == iden
  }

  /** The map keeps exactly the registrations whose identifier has not been referenced since. */
  lemma {:induction false} ReplayKeepsWaiting(events: seq<Event>, iden: string, node: Node)
    ensures Holds(Replay(events), iden, node) <==> Waiting(events, iden, node)
  {
    if events != [] {
      var n := |events| - 1;
      var before, e := events[..n], events[n];
      ReplayKeepsWaiting(before, iden, node);
      if Holds(Replay(events), iden, node) {
        if e == Registered(iden, node) {
          assert UnreferencedAt(events, n, node);
        } else {
          assert Holds(Replay(before), iden, node) && e != Referenced(iden);
          var i :| UnreferencedAt(before, i, node) && before[i].iden == iden;
          LaterIsSame(events, i, node);
          assert UnreferencedAt(events, i, node);
        }
      }
      if Waiting(events, iden, node) {
        var i :| UnreferencedAt(events, i, node) && events[i].iden == iden;
        if i < n {
          LaterIsSame(events, i, node);
          assert UnreferencedAt(before, i, node) && before[i].iden == iden;
        }
      }
    }
  }

  lemma LaterIsSame(events: seq<Event>, i: int, node: Node)
    requires 0 <= i < |events| - 1 && events[i].Registered? && events[i].node == node
    ensures var before, e := events[..|events| - 1], events[|events| - 1];
            UnreferencedAt(events, i, node) <==> UnreferencedAt(before, i, node) && e != Referenced(events[i].iden)
  {
    var n := |events| - 1;
    var before := events[..n];
    var iden := events[i].iden;
    if ReferencedFrom(events, i + 1, iden) {
      var j :| i + 1 <= j < |events| && events[j] == Referenced(iden);
      if j < n { assert before[j] == Referenced(iden); }
    }
    if ReferencedFrom(before, i + 1, iden) {
      var j :| i + 1 <= j < |before| && before[j] == Referenced(iden);
      assert events[j] == Referenced(iden);
    }
    if events[n] == Referenced(iden) { assert ReferencedFrom(events, i + 1, iden); }
  }

  /** `extern_global_array_initialisers` and the functions that use it. */
  class Registry {
    var initialisers: Pending
    ghost var events: seq<Event>

    ghost predicate Valid()
      reads this
    {
      initialisers == Replay(events)
    }

    constructor ()
      ensures Valid() && events == []
    {
      initialisers, events := map[], [];
    }

    method RegisterExternGlobalArrayInitialiser(iden: string, initNode: Node)
      requires Valid()
      modifies this
      ensures Valid() && events == old(events) + [Registered(iden, initNode)]
    {
      if iden !in initialisers {
        initialisers := initialisers[iden := [initNode]];
      } else {
        initialisers := initialisers[iden := initialisers[iden] + [initNode]];
      }
      assert [] + [initNode] == [initNode];
      events := events + [Registered(iden, initNode)];
      assert events[..|events| - 1] == old(events);
    }

    method RegisterGlobalReference(iden: string)
      requires Valid()
      modifies this
      ensures Valid() && events == old(events) + [Referenced(iden)]
    {
      if iden in initialisers {
        initialisers := initialisers - {iden};
      }
      events := events + [Referenced(iden)];
      assert events[..|events| - 1] == old(events);
      assert old(initialisers) - {iden} == initialisers;
    }

    /** Every node still in the map. */
    ghost function Nodes(): set<Node>
      reads this
    {
      set iden, k | iden in initialisers && 0 <= k < |initialisers[iden]| :: initialisers[iden][k]
    }

    /** The sweep: empties exactly the nodes with an unreferenced registration. */
    method SpecialCase()
      requires Valid()
      modifies Nodes()
      ensures forall node: Node :: old(allocated(node)) ==>
                node.buf == if Unreferenced(events, node) then "" else old(node.buf)
    {
      ghost var swept: set<Node> := {};
      var left := initialisers.Keys;
      while left != {}
        invariant left <= initialisers.Keys
        invariant forall node :: node in swept <==>
                    exists iden :: iden !in left && Holds(initialisers, iden, node)
        invariant forall node: Node :: old(allocated(node)) ==> node.buf == if node in swept then "" else old(node.buf)
        decreases left
      {
        var iden :| iden in left;
        var nodes := initialisers[iden];
        ghost var before := swept;
        for j := 0 to |nodes|
          invariant swept == before + (set node | node in nodes[..j])
          invariant forall node: Node :: old(allocated(node)) ==> node.buf == if node in swept then "" else old(node.buf)
        {
          assert nodes[..j + 1] == nodes[..j] + [nodes[j]];
          nodes[j].buf := "";
          swept := swept + {nodes[j]};
        }
        assert nodes[..|nodes|] == nodes;
        left := left - {iden};
      }
      forall node: Node | old(allocated(node)) ensures node in swept <==> Unreferenced(events, node) {
        SweptIsUnreferenced(node);
        assert node in swept <==> exists iden :: Holds(initialisers, iden, node);
      }
    }

    lemma SweptIsUnreferenced(node: Node)
      requires Valid()
      ensures (exists iden :: Holds(initialisers, iden, node)) <==> Unreferenced(events, node)
    {
      if Unreferenced(events, node) {
        var i :| UnreferencedAt(events, i, node);
        ReplayKeepsWaiting(events, events[i].iden, node);
        assert Holds(initialisers, events[i].iden, node);
      }
      if iden :| Holds(initialisers, iden, node) {
        ReplayKeepsWaiting(events, iden, node);
      }
    }
  }
}
