/** From tables to tables: any document that lists the entries of given tables is read back as those tables, exactly
    when the reader's 32-bit conversions lose nothing. */
module FlowTables {
  import opened Text
  import opened FlowMonitor
  import opened FlowDocument

  /** The table entry that a written flow stands for. */
  function AsWritten(f: FlowText): Flow { WithExactParts(f.head, f.parts) }

  /** The flows of a document are the entries of `table`, once each, in any order and layout. */
  ghost predicate ListsFlows(flows: seq<Elem<FlowText>>, table: map<uint32, Flow>) {
    && (forall i :: 0 <= i < |flows| ==>
          ValidFlow(flows[i].item) && flows[i].item.head.flowId in table && table[flows[i].item.head.flowId] == AsWritten(flows[i].item))
    && (forall id :: id in table ==> exists i :: 0 <= i < |flows| && flows[i].item.head.flowId == id)
    && (forall i, j :: 0 <= i < j < |flows| ==> flows[i].item.head.flowId != flows[j].item.head.flowId)
  }

  ghost predicate ListsClassifiers(cs: seq<Elem<Classifier>>, table: map<uint32, Classifier>) {
    && (forall i :: 0 <= i < |cs| ==> cs[i].item.flowId in table && table[cs[i].item.flowId] == cs[i].item)
    && (forall id :: id in table ==> exists i :: 0 <= i < |cs| && cs[i].item.flowId == id)
    && (forall i, j :: 0 <= i < j < |cs| ==> cs[i].item.flowId != cs[j].item.flowId)
  }

  ghost predicate Lists(d: Document, tables: Tables) {
    && ListsFlows(d.flows.item, tables.flows)
    && ListsClassifiers(d.classifiers.item, tables.classifiers)
    && ProbesOf(d.probes.item) == tables.probes
  }

  predicate ReasonsFit(rs: seq<Reason>) { forall i :: 0 <= i < |rs| ==> rs[i].number < 0x1_0000_0000 }

  predicate NumbersFit(f: Flow) { ReasonsFit(f.packetsDropped) && ReasonsFit(f.bytesDropped) }

  lemma ReasonsFitAppend(rs: seq<Reason>, r: Reason)
    ensures ReasonsFit(rs + [r]) <==> ReasonsFit(rs) && r.number < 0x1_0000_0000
  {
    if ReasonsFit(rs + [r]) {
      assert (rs + [r])[|rs|] == r;
      assert forall i :: 0 <= i < |rs| ==> rs[i] == (rs + [r])[i];
    }
  }

  lemma {:induction false} PartsFit(f: Flow, parts: seq<Elem<Part>>)
    ensures NumbersFit(WithExactParts(f, parts)) <==> NumbersFit(f) && forall i :: 0 <= i < |parts| ==> Fits(parts[i].item)
    decreases |parts|
  {
    hide ReasonsFit;
    if parts != [] {
      var p := parts[0].item;
      if p.PacketsDropped? { ReasonsFitAppend(f.packetsDropped, p.reason); }
      if p.BytesDropped? { ReasonsFitAppend(f.bytesDropped, p.reason); }
      assert NumbersFit(WithExactPart(f, p)) <==> NumbersFit(f) && Fits(p);
      PartsFit(WithExactPart(f, p), parts[1..]);
      assert forall i :: 1 <= i < |parts| ==> parts[i] == parts[1..][i - 1];
    }
  }

  lemma {:induction false} SameId(f: Flow, parts: seq<Elem<Part>>)
    ensures WithParts(f, parts).flowId == f.flowId
    decreases |parts|
  {
    if parts != [] { SameId(WithPart(f, parts[0].item), parts[1..]); }
  }

  /** A flow is read back as written iff the numbers of its table entry fit. */
  lemma FlowReadsBack(f: FlowText)
    requires ValidFlow(f)
    ensures FlowOf(f) == AsWritten(f) <==> NumbersFit(AsWritten(f))
    ensures FlowOf(f).flowId == f.head.flowId
  {
    FlowSurvives(f);
    PartsFit(f.head, f.parts);
    SameId(f.head, f.parts);
  }

  // ---------- The tables that reading builds ----------

  lemma {:induction false} FlowsElse(m: map<uint32, Flow>, flows: seq<Elem<FlowText>>, id: uint32)
    requires forall i :: 0 <= i < |flows| ==> flows[i].item.head.flowId != id
    ensures id in AddFlows(m, flows) <==> id in m
    ensures id in m ==> AddFlows(m, flows)[id] == m[id]
    decreases |flows|
  {
    if flows != [] {
      SameId(flows[0].item.head, flows[0].item.parts);
      FlowsElse(m[FlowOf(flows[0].item).flowId := FlowOf(flows[0].item)], flows[1..], id);
    }
  }

  lemma {:induction false} FlowsAt(m: map<uint32, Flow>, flows: seq<Elem<FlowText>>, i: nat)
    requires i < |flows|
    requires forall j, k :: 0 <= j < k < |flows| ==> flows[j].item.head.flowId != flows[k].item.head.flowId
    ensures var id := flows[i].item.head.flowId; id in AddFlows(m, flows) && AddFlows(m, flows)[id] == FlowOf(flows[i].item)
    decreases |flows|
  {
    var first := FlowOf(flows[0].item);
    SameId(flows[0].item.head, flows[0].item.parts);
    if i == 0 {
      FlowsElse(m[first.flowId := first], flows[1..], first.flowId);
    } else {
      FlowsAt(m[first.flowId := first], flows[1..], i - 1);
    }
  }

  lemma {:induction false} ClassifiersElse(m: map<uint32, Classifier>, cs: seq<Elem<Classifier>>, id: uint32)
    requires forall i :: 0 <= i < |cs| ==> cs[i].item.flowId != id
    ensures id in AddClassifiers(m, cs) <==> id in m
    ensures id in m ==> AddClassifiers(m, cs)[id] == m[id]
    decreases |cs|
  {
    if cs != [] { ClassifiersElse(m[cs[0].item.flowId := cs[0].item], cs[1..], id); }
  }

  lemma {:induction false} ClassifiersAt(m: map<uint32, Classifier>, cs: seq<Elem<Classifier>>, i: nat)
    requires i < |cs|
    requires forall j, k :: 0 <= j < k < |cs| ==> cs[j].item.flowId != cs[k].item.flowId
    ensures cs[i].item.flowId in AddClassifiers(m, cs) && AddClassifiers(m, cs)[cs[i].item.flowId] == cs[i].item
    decreases |cs|
  {
    var c := cs[0].item;
    if i == 0 { ClassifiersElse(m[c.flowId := c], cs[1..], c.flowId); } else { ClassifiersAt(m[c.flowId := c], cs[1..], i - 1); }
  }

  lemma ClassifiersBuilt(cs: seq<Elem<Classifier>>, table: map<uint32, Classifier>)
    requires ListsClassifiers(cs, table)
    ensures AddClassifiers(map[], cs) == table
  {
    var built := AddClassifiers(map[], cs);
    forall id: uint32 ensures id in built <==> id in table {
      if i :| 0 <= i < |cs| && cs[i].item.flowId == id { ClassifiersAt(map[], cs, i); } else { ClassifiersElse(map[], cs, id); }
    }
    forall id | id in table ensures built[id] == table[id] {
      var i :| 0 <= i < |cs| && cs[i].item.flowId == id;
      ClassifiersAt(map[], cs, i);
    }
  }

  /** The flow table that reading builds is the given one iff every number in that fits. */
  lemma FlowsBuilt(flows: seq<Elem<FlowText>>, table: map<uint32, Flow>)
    requires ListsFlows(flows, table)
    ensures AddFlows(map[], flows) == table <==> forall id :: id in table ==> NumbersFit(table[id])
  {
    hide AddFlows, AsWritten, FlowOf, NumbersFit, ValidFlow;
    var built := AddFlows(map[], flows);
    forall id: uint32 ensures id in built <==> id in table {
      if i :| 0 <= i < |flows| && flows[i].item.head.flowId == id { FlowsAt(map[], flows, i); } else { FlowsElse(map[], flows, id); }
    }
    forall id | id in table ensures built[id] == table[id] <==> NumbersFit(table[id]) {
      var i :| 0 <= i < |flows| && flows[i].item.head.flowId == id;
      FlowsAt(map[], flows, i);
      FlowReadsBack(flows[i].item);
    }
  }

  /** Reading a document that lists the entries of any flow, classifier and probe tables, once each, in any order and
      layout, gives those tables back iff every dropped number in them fits in 32 bits. */
  lemma TablesReadBack(d: Document, tables: Tables)
    requires Lists(d, tables)
    ensures ParseDocument(DocumentTokens(d)) == Some(tables) <==> forall id :: id in tables.flows ==> NumbersFit(tables.flows[id])
  {
    DocumentRoundTrip(d);
    FlowsBuilt(d.flows.item, tables.flows);
    ClassifiersBuilt(d.classifiers.item, tables.classifiers);
  }
}
