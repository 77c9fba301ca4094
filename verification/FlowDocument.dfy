/** Writing flow-monitor documents, with white space anywhere the format allows it, and reading them back. */
module FlowDocument {
  import opened Text
  import opened FlowMonitor

  /** An element with the number of blank tokens before it and inside it. */
  datatype Elem<T> = Elem(before: nat, item: T, inside: nat)

  datatype HistogramText = HistogramText(name: string, nBins: uint32, bins: seq<Elem<Bin>>)
  datatype Part = PacketsDropped(reason: Reason) | BytesDropped(reason: Reason) | Hist(histogram: HistogramText)

  /** A flow: its attributes (`head`, whose own vectors are empty) and its children in any order. */
  datatype FlowText = FlowText(head: Flow, parts: seq<Elem<Part>>)

  /** The three sections; each `Elem` also gives the blank tokens before the section and before its end. */
  datatype Document = Document(flows: Elem<seq<Elem<FlowText>>>, classifiers: Elem<seq<Elem<Classifier>>>,
                               probes: Elem<seq<Elem<seq<Elem<ProbeStats>>>>>, trailing: nat)

  // ---------- Attributes ----------

  function BinAttributes(b: Bin): Attributes {
    map["index" := Whole(b.index), "start" := Fraction(b.start), "width" := Fraction(b.width), "count" := Whole(b.count)]
  }

  function ReasonAttributes(r: Reason, number: string): Attributes {
    map["reasonCode" := Whole(r.reasonCode), number := Whole(r.number)]
  }

  function StatsAttributes(s: ProbeStats): Attributes {
    map["flowId" := Whole(s.flowId), "packets" := Whole(s.packets), "bytes" := Whole(s.bytes),
        "delayFromFirstProbeSum" := Fraction(s.delayFromFirstProbeSum)]
  }

  function ClassifierAttributes(c: Classifier): Attributes {
    map["flowId" := Whole(c.flowId), "sourceAddress" := Words(c.sourceAddress), "destinationAddress" := Words(c.destinationAddress),
        "protocol" := Whole(c.protocol), "sourcePort" := Whole(c.sourcePort), "destinationPort" := Whole(c.destinationPort)]
  }

  function FlowAttributes(f: Flow): Attributes {
    map["flowId" := Whole(f.flowId),
        "timeFirstTxPacket" := Fraction(f.timeFirstTxPacket), "timeFirstRxPacket" := Fraction(f.timeFirstRxPacket),
        "timeLastTxPacket" := Fraction(f.timeLastTxPacket), "timeLastRxPacket" := Fraction(f.timeLastRxPacket),
        "delaySum" := Fraction(f.delaySum), "jitterSum" := Fraction(f.jitterSum), "lastDelay" := Fraction(f.lastDelay),
        "txBytes" := Whole(f.txBytes), "rxBytes" := Whole(f.rxBytes), "txPackets" := Whole(f.txPackets),
        "rxPackets" := Whole(f.rxPackets), "lostPackets" := Whole(f.lostPackets), "timesForwarded" := Whole(f.timesForwarded)]
  }

  // ---------- Tokens ----------

  function Blanks(n: nat): seq<Token> { if n == 0 then [] else [Blank] + Blanks(n - 1) }

  function Leaf(name: string, a: Attributes, inside: nat): seq<Token> {
    [Open(name, a)] + (Blanks(inside) + [End(name)])
  }

  function BinTokens(bins: seq<Elem<Bin>>): seq<Token> {
    if bins == [] then []
    else Blanks(bins[0].before) + (Leaf("bin", BinAttributes(bins[0].item), bins[0].inside) + BinTokens(bins[1..]))
  }

  function PartTokens(p: Part, inside: nat): seq<Token> {
    match p
    case PacketsDropped(r) => Leaf("packetsDropped", ReasonAttributes(r, "number"), inside)
    case BytesDropped(r) => Leaf("bytesDropped", ReasonAttributes(r, "bytes"), inside)
    case Hist(h) => [Open(h.name, map["nBins" := Whole(h.nBins)])] + (BinTokens(h.bins) + (Blanks(inside) + [End(h.name)]))
  }

  function PartsTokens(parts: seq<Elem<Part>>): seq<Token> {
    if parts == [] then []
    else Blanks(parts[0].before) + (PartTokens(parts[0].item, parts[0].inside) + PartsTokens(parts[1..]))
  }

  function FlowsTokens(flows: seq<Elem<FlowText>>): seq<Token> {
    if flows == [] then []
    else
      var f := flows[0].item;
      Blanks(flows[0].before) + ([Open("Flow", FlowAttributes(f.head))] +
        (PartsTokens(f.parts) + (Blanks(flows[0].inside) + ([End("Flow")] + FlowsTokens(flows[1..])))))
  }

  function ClassifiersTokens(cs: seq<Elem<Classifier>>): seq<Token> {
    if cs == [] then []
    else Blanks(cs[0].before) + (Leaf("Flow", ClassifierAttributes(cs[0].item), cs[0].inside) + ClassifiersTokens(cs[1..]))
  }

  function StatsTokens(stats: seq<Elem<ProbeStats>>): seq<Token> {
    if stats == [] then []
    else Blanks(stats[0].before) + (Leaf("FlowStats", StatsAttributes(stats[0].item), stats[0].inside) + StatsTokens(stats[1..]))
  }

  function ProbesTokens(probes: seq<Elem<seq<Elem<ProbeStats>>>>): seq<Token> {
    if probes == [] then []
    else
      Blanks(probes[0].before) + ([Open("FlowProbe", map[])] +
        (StatsTokens(probes[0].item) + (Blanks(probes[0].inside) + ([End("FlowProbe")] + ProbesTokens(probes[1..])))))
  }

  function SectionTokens<T>(name: string, section: Elem<T>, inner: seq<Token>, after: seq<Token>): seq<Token> {
    Blanks(section.before) + ([Open(name, map[])] + (inner + (Blanks(section.inside) + ([End(name)] + after))))
  }

  function DocumentTokens(d: Document): seq<Token> {
    [StartDocument] + ([Open("FlowMonitor", map[])] +
      SectionTokens("FlowStats", d.flows, FlowsTokens(d.flows.item),
        SectionTokens("Ipv4FlowClassifier", d.classifiers, ClassifiersTokens(d.classifiers.item),
          SectionTokens("FlowProbes", d.probes, ProbesTokens(d.probes.item),
            Blanks(d.trailing) + [End("FlowMonitor"), EndDocument]))))
  }

  // ---------- What a document means ----------

  /** The reader keeps the number of a dropped reason only if it fits in 32 bits. */
  function Kept(r: Reason): Reason { r.(number := if r.number < 0x1_0000_0000 then r.number else 0) }

  function Items<T>(es: seq<Elem<T>>): seq<T> { seq(|es|, i requires 0 <= i < |es| => es[i].item) }

  function WithPart(f: Flow, p: Part): Flow {
    match p
    case PacketsDropped(r) => f.(packetsDropped := f.packetsDropped + [Kept(r)])
    case BytesDropped(r) => f.(bytesDropped := f.bytesDropped + [Kept(r)])
    case Hist(h) => f.(histograms := f.histograms + [Histogram(h.name, h.nBins, Items(h.bins))])
  }

  function WithParts(f: Flow, parts: seq<Elem<Part>>): Flow
    decreases |parts|
  {
    if parts == [] then f else WithParts(WithPart(f, parts[0].item), parts[1..])
  }

  function FlowOf(f: FlowText): Flow { WithParts(f.head, f.parts) }

  function AddFlows(m: map<uint32, Flow>, flows: seq<Elem<FlowText>>): map<uint32, Flow>
    decreases |flows|
  {
    if flows == [] then m
    else AddFlows(m[FlowOf(flows[0].item).flowId := FlowOf(flows[0].item)], flows[1..])
  }

  function AddClassifiers(m: map<uint32, Classifier>, cs: seq<Elem<Classifier>>): map<uint32, Classifier>
    decreases |cs|
  {
    if cs == [] then m else AddClassifiers(m[cs[0].item.flowId := cs[0].item], cs[1..])
  }

  function ProbesOf(probes: seq<Elem<seq<Elem<ProbeStats>>>>): seq<Probe> {
    seq(|probes|, i requires 0 <= i < |probes| => Items(probes[i].item))
  }

  function TablesOf(d: Document): Tables {
    Tables(AddFlows(map[], d.flows.item), AddClassifiers(map[], d.classifiers.item), ProbesOf(d.probes.item))
  }

  /** The four histograms of a flow, as the simulator names them. */
  predicate WritesHistogram(name: string) {
    name == "delayHistogram" || name == "jitterHistogram" || name == "packetSizeHistogram" || name == "flowInterruptionsHistogram"
  }

  predicate ValidFlow(f: FlowText) {
    && f.head.bytesDropped == [] && f.head.packetsDropped == [] && f.head.histograms == []
    && forall i :: 0 <= i < |f.parts| && f.parts[i].item.Hist? ==> WritesHistogram(f.parts[i].item.histogram.name)
  }

  // ---------- Attributes that do not convert ----------

  /** A missing or malformed number is 0, and so is one that is out of range for its conversion; a reason code keeps
      its low byte. */
  lemma Conversions(a: Attributes, name: string, n: nat)
    ensures name !in a || a[name].Words? || a[name].Fraction? ==> UInt(a, name) == ULong(a, name) == UShort(a, name) == 0
    ensures name in a && a[name] == Whole(n) ==>
              && (n <= 0xFFFF ==> UShort(a, name) == n) && (n > 0xFFFF ==> UShort(a, name) == 0)
              && (n <= 0xFFFF_FFFF ==> UInt(a, name) == n) && (n > 0xFFFF_FFFF ==> UInt(a, name) == 0)
              && (n <= 0xFFFF_FFFF_FFFF_FFFF ==> ULong(a, name) == n) && (n > 0xFFFF_FFFF_FFFF_FFFF ==> ULong(a, name) == 0)
    ensures name !in a || a[name].Words? ==> Double(a, name) == 0.0
    ensures name in a && a[name] == Whole(n) ==> Double(a, name) == n as real
    ensures name !in a ==> Str(a, name) == ""
    ensures "reasonCode" in a && a["reasonCode"] == Whole(n) && n <= 0xFFFF_FFFF ==>
              exists k: nat :: n == 256 * k + ReadReason(a, name).reasonCode
  {
    if "reasonCode" in a && a["reasonCode"] == Whole(n) && n <= 0xFFFF_FFFF {
      assert n == 256 * (n / 256) + ReadReason(a, name).reasonCode;
    }
  }

  // ---------- Attributes are read back ----------

  lemma BinReadBack(b: Bin)
    ensures ReadBin(BinAttributes(b)) == b
  {
  }

  lemma ReasonReadBack(r: Reason, number: string)
    requires number == "number" || number == "bytes"
    ensures ReadReason(ReasonAttributes(r, number), number) == Kept(r)
  {
    assert "reasonCode" != number;
  }

  lemma StatsReadBack(s: ProbeStats)
    ensures ReadProbeStats(StatsAttributes(s)) == s
  {
  }

  lemma ClassifierReadBack(c: Classifier)
    ensures ReadClassifier(ClassifierAttributes(c)) == c
  {
  }

  lemma FlowReadBack(f: Flow)
    requires f.bytesDropped == [] && f.packetsDropped == [] && f.histograms == []
    ensures ReadFlow(FlowAttributes(f)) == f
  {
  }

  // ---------- Histograms ----------

  lemma Regroup<T>(a: seq<T>, b: seq<T>, c: seq<T>)
    ensures (a + b) + c == a + (b + c)
  {
  }

  lemma ItemsCons<T>(es: seq<Elem<T>>)
    requires es != []
    ensures Items(es) == [es[0].item] + Items(es[1..])
  {
  }

  lemma BinsStep(name: string, t: Token, rest: seq<Token>, acc: seq<Bin>)
    ensures BinsFrom(name, [t] + rest, acc) ==
            if Name(t) == name then Some((acc, rest))
            else BinsFrom(name, rest, if Name(t) == "bin" && t.Open? then acc + [ReadBin(t.attributes)] else acc)
  {
    assert ([t] + rest)[1..] == rest;
  }

  lemma {:induction false} BinsBlanks(name: string, n: nat, rest: seq<Token>, acc: seq<Bin>)
    requires name != ""
    ensures BinsFrom(name, Blanks(n) + rest, acc) == BinsFrom(name, rest, acc)
  {
    hide BinsFrom;
    if n == 0 {
      assert Blanks(0) + rest == rest;
    } else {
      BinsBlanks(name, n - 1, rest, acc);
      BinsStep(name, Blank, Blanks(n - 1) + rest, acc);
      Regroup([Blank], Blanks(n - 1), rest);
    }
  }

  lemma BinsLeaf(name: string, b: Elem<Bin>, rest: seq<Token>, acc: seq<Bin>)
    requires WritesHistogram(name)
    ensures BinsFrom(name, Leaf("bin", BinAttributes(b.item), b.inside) + rest, acc) == BinsFrom(name, rest, acc + [b.item])
  {
    hide BinsFrom;
    var a := BinAttributes(b.item);
    BinReadBack(b.item);
    Regroup([Open("bin", a)], Blanks(b.inside) + [End("bin")], rest);
    Regroup(Blanks(b.inside), [End("bin")], rest);
    BinsStep(name, Open("bin", a), Blanks(b.inside) + ([End("bin")] + rest), acc);
    BinsBlanks(name, b.inside, [End("bin")] + rest, acc + [b.item]);
    BinsStep(name, End("bin"), rest, acc + [b.item]);
  }

  lemma {:induction false} BinsRead(name: string, bins: seq<Elem<Bin>>, inside: nat, rest: seq<Token>, acc: seq<Bin>)
    requires WritesHistogram(name)
    ensures BinsFrom(name, BinTokens(bins) + (Blanks(inside) + ([End(name)] + rest)), acc) == Some((acc + Items(bins), rest))
    decreases |bins|
  {
    hide BinsFrom;
    var after := Blanks(inside) + ([End(name)] + rest);
    if bins == [] {
      assert BinTokens(bins) + after == after && acc + Items(bins) == acc;
      BinsBlanks(name, inside, [End(name)] + rest, acc);
      BinsStep(name, End(name), rest, acc);
    } else {
      var b := bins[0];
      var leaf := Leaf("bin", BinAttributes(b.item), b.inside);
      Regroup(Blanks(b.before), leaf + BinTokens(bins[1..]), after);
      Regroup(leaf, BinTokens(bins[1..]), after);
      BinsBlanks(name, b.before, leaf + (BinTokens(bins[1..]) + after), acc);
      BinsLeaf(name, b, BinTokens(bins[1..]) + after, acc);
      BinsRead(name, bins[1..], inside, rest, acc + [b.item]);
      ItemsCons(bins);
      Regroup(acc, [b.item], Items(bins[1..]));
    }
  }

  // ---------- Flows ----------

  lemma FlowStep(t: Token, rest: seq<Token>, flow: Flow)
    requires Name(t) != "Flow" && !(IsHistogram(Name(t)))
    ensures FlowFrom([t] + rest, flow) ==
            FlowFrom(rest, if t.Open? && t.name == "packetsDropped" then
                             flow.(packetsDropped := flow.packetsDropped + [ReadReason(t.attributes, "number")])
                           else if t.Open? && t.name == "bytesDropped" then
                             flow.(bytesDropped := flow.bytesDropped + [ReadReason(t.attributes, "bytes")])
                           else flow)
  {
    assert ([t] + rest)[1..] == rest;
  }

  /** Inside a flow, an element that is none of the four histograms, no dropped reason and no end of the flow is passed over. */
  lemma OtherElements(t: Token, rest: seq<Token>, flow: Flow)
    requires Name(t) != "Flow" && Name(t) != "packetsDropped" && Name(t) != "bytesDropped" && !WritesHistogram(Name(t))
    ensures FlowFrom([t] + rest, flow) == FlowFrom(rest, flow)
  {
    FlowStep(t, rest, flow);
  }

  lemma FlowEnd(rest: seq<Token>, flow: Flow)
    ensures FlowFrom([End("Flow")] + rest, flow) == Some((flow, rest))
  {
    assert ([End("Flow")] + rest)[1..] == rest;
  }

  lemma FlowHistogram(h: HistogramText, inside: nat, rest: seq<Token>, flow: Flow)
    requires WritesHistogram(h.name)
    ensures FlowFrom(PartTokens(Hist(h), inside) + rest, flow) == FlowFrom(rest, WithPart(flow, Hist(h)))
  {
    hide BinsFrom;
    var t := Open(h.name, map["nBins" := Whole(h.nBins)]);
    var body := BinTokens(h.bins) + (Blanks(inside) + [End(h.name)]);
    var after := BinTokens(h.bins) + (Blanks(inside) + ([End(h.name)] + rest));
    Regroup([t], body, rest);
    Regroup(BinTokens(h.bins), Blanks(inside) + [End(h.name)], rest);
    Regroup(Blanks(inside), [End(h.name)], rest);
    assert PartTokens(Hist(h), inside) + rest == [t] + after;
    assert ([t] + after)[1..] == after;
    BinsRead(h.name, h.bins, inside, rest, []);
    assert [] + Items(h.bins) == Items(h.bins);
  }

  lemma {:induction false} FlowBlanks(n: nat, rest: seq<Token>, flow: Flow)
    ensures FlowFrom(Blanks(n) + rest, flow) == FlowFrom(rest, flow)
  {
    hide FlowFrom;
    if n == 0 {
      assert Blanks(0) + rest == rest;
    } else {
      FlowBlanks(n - 1, rest, flow);
      FlowStep(Blank, Blanks(n - 1) + rest, flow);
      Regroup([Blank], Blanks(n - 1), rest);
    }
  }

  lemma FlowReason(p: Part, inside: nat, rest: seq<Token>, flow: Flow)
    requires !p.Hist?
    ensures FlowFrom(PartTokens(p, inside) + rest, flow) == FlowFrom(rest, WithPart(flow, p))
  {
    hide FlowFrom, ReadReason, Kept, ReasonAttributes;
    var number := if p.PacketsDropped? then "number" else "bytes";
    var name := if p.PacketsDropped? then "packetsDropped" else "bytesDropped";
    var a := ReasonAttributes(p.reason, number);
    ReasonReadBack(p.reason, number);
    Regroup([Open(name, a)], Blanks(inside) + [End(name)], rest);
    Regroup(Blanks(inside), [End(name)], rest);
    FlowStep(Open(name, a), Blanks(inside) + ([End(name)] + rest), flow);
    FlowBlanks(inside, [End(name)] + rest, WithPart(flow, p));
    FlowStep(End(name), rest, WithPart(flow, p));
  }

  lemma {:induction false} FlowParts(parts: seq<Elem<Part>>, inside: nat, rest: seq<Token>, flow: Flow)
    requires forall i :: 0 <= i < |parts| && parts[i].item.Hist? ==> WritesHistogram(parts[i].item.histogram.name)
    ensures FlowFrom(PartsTokens(parts) + (Blanks(inside) + ([End("Flow")] + rest)), flow) == Some((WithParts(flow, parts), rest))
    decreases |parts|
  {
    hide FlowFrom, WritesHistogram, PartTokens, WithPart;
    var after := Blanks(inside) + ([End("Flow")] + rest);
    if parts == [] {
      assert PartsTokens(parts) + after == after;
      FlowBlanks(inside, [End("Flow")] + rest, flow);
      FlowEnd(rest, flow);
    } else {
      var p := parts[0];
      var tokens, later := PartTokens(p.item, p.inside), PartsTokens(parts[1..]) + after;
      Regroup(Blanks(p.before), tokens + PartsTokens(parts[1..]), after);
      Regroup(tokens, PartsTokens(parts[1..]), after);
      FlowBlanks(p.before, tokens + later, flow);
      if p.item.Hist? {
        FlowHistogram(p.item.histogram, p.inside, later, flow);
      } else {
        FlowReason(p.item, p.inside, later, flow);
      }
      FlowParts(parts[1..], inside, rest, WithPart(flow, p.item));
    }
  }

  // ---------- Probes ----------

  lemma ProbeStep(t: Token, rest: seq<Token>, probe: Probe)
    ensures ProbeFrom([t] + rest, probe) ==
            if Name(t) == "FlowProbe" then Some((probe, rest))
            else ProbeFrom(rest, if Name(t) == "FlowStats" && t.Open? then probe + [ReadProbeStats(t.attributes)] else probe)
  {
    assert ([t] + rest)[1..] == rest;
  }

  lemma {:induction false} ProbeBlanks(n: nat, rest: seq<Token>, probe: Probe)
    ensures ProbeFrom(Blanks(n) + rest, probe) == ProbeFrom(rest, probe)
  {
    hide ProbeFrom;
    if n == 0 {
      assert Blanks(0) + rest == rest;
    } else {
      ProbeBlanks(n - 1, rest, probe);
      ProbeStep(Blank, Blanks(n - 1) + rest, probe);
      Regroup([Blank], Blanks(n - 1), rest);
    }
  }

  lemma {:induction false} ProbeRead(stats: seq<Elem<ProbeStats>>, inside: nat, rest: seq<Token>, probe: Probe)
    ensures ProbeFrom(StatsTokens(stats) + (Blanks(inside) + ([End("FlowProbe")] + rest)), probe) == Some((probe + Items(stats), rest))
    decreases |stats|
  {
    hide ProbeFrom, StatsAttributes, ReadProbeStats;
    var after := Blanks(inside) + ([End("FlowProbe")] + rest);
    if stats == [] {
      assert StatsTokens(stats) + after == after && probe + Items(stats) == probe;
      ProbeBlanks(inside, [End("FlowProbe")] + rest, probe);
      ProbeStep(End("FlowProbe"), rest, probe);
    } else {
      var s := stats[0];
      var a, later := StatsAttributes(s.item), StatsTokens(stats[1..]) + after;
      var leaf := Leaf("FlowStats", a, s.inside);
      Regroup(Blanks(s.before), leaf + StatsTokens(stats[1..]), after);
      Regroup(leaf, StatsTokens(stats[1..]), after);
      ProbeBlanks(s.before, leaf + later, probe);
      StatsReadBack(s.item);
      Regroup([Open("FlowStats", a)], Blanks(s.inside) + [End("FlowStats")], later);
      Regroup(Blanks(s.inside), [End("FlowStats")], later);
      ProbeStep(Open("FlowStats", a), Blanks(s.inside) + ([End("FlowStats")] + later), probe);
      ProbeBlanks(s.inside, [End("FlowStats")] + later, probe + [s.item]);
      ProbeStep(End("FlowStats"), later, probe + [s.item]);
      ProbeRead(stats[1..], inside, rest, probe + [s.item]);
      ItemsCons(stats);
      Regroup(probe, [s.item], Items(stats[1..]));
    }
  }

  lemma ProbesStep(t: Token, rest: seq<Token>, probes: seq<Probe>)
    requires !(t.Open? && t.name == "FlowProbe")
    ensures ProbesFrom([t] + rest, probes) == if Name(t) == "FlowProbes" then Some((probes, rest)) else ProbesFrom(rest, probes)
  {
    assert ([t] + rest)[1..] == rest;
  }

  lemma ProbesOpen(a: Attributes, rest: seq<Token>, probe: Probe, later: seq<Token>, probes: seq<Probe>)
    requires ProbeFrom(rest, []) == Some((probe, later))
    ensures ProbesFrom([Open("FlowProbe", a)] + rest, probes) == ProbesFrom(later, probes + [probe])
  {
    assert ([Open("FlowProbe", a)] + rest)[1..] == rest;
  }

  lemma {:induction false} ProbesBlanks(n: nat, rest: seq<Token>, probes: seq<Probe>)
    ensures ProbesFrom(Blanks(n) + rest, probes) == ProbesFrom(rest, probes)
  {
    hide ProbesFrom;
    if n == 0 {
      assert Blanks(0) + rest == rest;
    } else {
      ProbesBlanks(n - 1, rest, probes);
      ProbesStep(Blank, Blanks(n - 1) + rest, probes);
      Regroup([Blank], Blanks(n - 1), rest);
    }
  }

  lemma ProbesLayout(ps: seq<Elem<seq<Elem<ProbeStats>>>>, after: seq<Token>)
    requires ps != []
    ensures ProbesTokens(ps) + after ==
            Blanks(ps[0].before) + ([Open("FlowProbe", map[])] +
              (StatsTokens(ps[0].item) + (Blanks(ps[0].inside) + ([End("FlowProbe")] + (ProbesTokens(ps[1..]) + after)))))
  {
    var p, later := ps[0], ProbesTokens(ps[1..]);
    var closing := [End("FlowProbe")] + later;
    Regroup([End("FlowProbe")], later, after);
    Regroup(Blanks(p.inside), closing, after);
    Regroup(StatsTokens(p.item), Blanks(p.inside) + closing, after);
    Regroup([Open("FlowProbe", map[])], StatsTokens(p.item) + (Blanks(p.inside) + closing), after);
    Regroup(Blanks(p.before), [Open("FlowProbe", map[])] + (StatsTokens(p.item) + (Blanks(p.inside) + closing)), after);
  }

  lemma ProbesOfStep(ps: seq<Elem<seq<Elem<ProbeStats>>>>)
    requires ps != []
    ensures ProbesOf(ps) == [Items(ps[0].item)] + ProbesOf(ps[1..])
  {
  }

  lemma {:induction false} ProbesRead(ps: seq<Elem<seq<Elem<ProbeStats>>>>, inside: nat, rest: seq<Token>, probes: seq<Probe>)
    ensures ProbesFrom(ProbesTokens(ps) + (Blanks(inside) + ([End("FlowProbes")] + rest)), probes) == Some((probes + ProbesOf(ps), rest))
    decreases |ps|
  {
    hide ProbesFrom, ProbeFrom;
    var after := Blanks(inside) + ([End("FlowProbes")] + rest);
    if ps == [] {
      assert ProbesTokens(ps) + after == after && probes + ProbesOf(ps) == probes;
      ProbesBlanks(inside, [End("FlowProbes")] + rest, probes);
      ProbesStep(End("FlowProbes"), rest, probes);
    } else {
      var p, later := ps[0], ProbesTokens(ps[1..]) + after;
      var body := StatsTokens(p.item) + (Blanks(p.inside) + ([End("FlowProbe")] + later));
      ProbesLayout(ps, after);
      ProbesBlanks(p.before, [Open("FlowProbe", map[])] + body, probes);
      ProbeRead(p.item, p.inside, later, []);
      assert [] + Items(p.item) == Items(p.item);
      ProbesOpen(map[], body, Items(p.item), later, probes);
      ProbesRead(ps[1..], inside, rest, probes + [Items(p.item)]);
      ProbesOfStep(ps);
      hide StatsTokens, ProbesTokens, ProbesOf, Blanks;
      Regroup(probes, [Items(p.item)], ProbesOf(ps[1..]));
    }
  }

  // ---------- Sections and documents ----------

  predicate Passed(t: Token) {
    !t.Open? || (t.name != "FlowStats" && t.name != "Ipv4FlowClassifier" && t.name != "FlowProbes" && t.name != "Flow")
  }

  lemma Pass(t: Token, rest: seq<Token>, state: Section, tables: Tables)
    requires Passed(t)
    ensures DocumentFrom(state, tables, [t] + rest) == DocumentFrom(state, tables, rest)
  {
    assert ([t] + rest)[1..] == rest;
  }

  lemma {:induction false} PassBlanks(n: nat, rest: seq<Token>, state: Section, tables: Tables)
    ensures DocumentFrom(state, tables, Blanks(n) + rest) == DocumentFrom(state, tables, rest)
  {
    hide DocumentFrom;
    if n == 0 {
      assert Blanks(0) + rest == rest;
    } else {
      PassBlanks(n - 1, rest, state, tables);
      Pass(Blank, Blanks(n - 1) + rest, state, tables);
      Regroup([Blank], Blanks(n - 1), rest);
    }
  }

  lemma OpenFlow(a: Attributes, rest: seq<Token>, flow: Flow, later: seq<Token>, tables: Tables)
    requires FlowFrom(rest, ReadFlow(a)) == Some((flow, later))
    ensures DocumentFrom(InFlowStats, tables, [Open("Flow", a)] + rest) ==
            DocumentFrom(InFlowStats, tables.(flows := tables.flows[flow.flowId := flow]), later)
  {
    assert ([Open("Flow", a)] + rest)[1..] == rest;
  }

  /** Outside both sections a `Flow` element changes no table. */
  lemma FlowElsewhere(a: Attributes, rest: seq<Token>, state: Section, tables: Tables)
    requires state == Init || state == InProbes
    ensures DocumentFrom(state, tables, [Open("Flow", a)] + rest) == DocumentFrom(state, tables, rest)
  {
    assert ([Open("Flow", a)] + rest)[1..] == rest;
  }

  lemma OpenClassifier(c: Classifier, rest: seq<Token>, tables: Tables)
    ensures DocumentFrom(InClassifier, tables, [Open("Flow", ClassifierAttributes(c))] + rest) ==
            DocumentFrom(InClassifier, tables.(classifiers := tables.classifiers[c.flowId := c]), rest)
  {
    hide ReadClassifier, ClassifierAttributes;
    assert ([Open("Flow", ClassifierAttributes(c))] + rest)[1..] == rest;
    ClassifierReadBack(c);
  }

  lemma FlowsLayout(flows: seq<Elem<FlowText>>, after: seq<Token>)
    requires flows != []
    ensures FlowsTokens(flows) + after ==
            var f := flows[0].item;
            Blanks(flows[0].before) + ([Open("Flow", FlowAttributes(f.head))] +
              (PartsTokens(f.parts) + (Blanks(flows[0].inside) + ([End("Flow")] + (FlowsTokens(flows[1..]) + after)))))
  {
    var f, later := flows[0].item, FlowsTokens(flows[1..]);
    var a := FlowAttributes(f.head);
    hide FlowAttributes;
    var closing := [End("Flow")] + later;
    Regroup([End("Flow")], later, after);
    Regroup(Blanks(flows[0].inside), closing, after);
    Regroup(PartsTokens(f.parts), Blanks(flows[0].inside) + closing, after);
    Regroup([Open("Flow", a)], PartsTokens(f.parts) + (Blanks(flows[0].inside) + closing), after);
    Regroup(Blanks(flows[0].before), [Open("Flow", a)] + (PartsTokens(f.parts) + (Blanks(flows[0].inside) + closing)), after);
  }

  lemma {:induction false} FlowsRead(flows: seq<Elem<FlowText>>, rest: seq<Token>, tables: Tables)
    requires forall i :: 0 <= i < |flows| ==> ValidFlow(flows[i].item)
    ensures DocumentFrom(InFlowStats, tables, FlowsTokens(flows) + rest) ==
            DocumentFrom(InFlowStats, tables.(flows := AddFlows(tables.flows, flows)), rest)
    decreases |flows|
  {
    hide DocumentFrom, FlowFrom, FlowAttributes, ReadFlow, PartsTokens;
    if flows == [] {
      assert FlowsTokens(flows) + rest == rest;
    } else {
      var f, later := flows[0].item, FlowsTokens(flows[1..]) + rest;
      assert ValidFlow(flows[0].item);
      var body := PartsTokens(f.parts) + (Blanks(flows[0].inside) + ([End("Flow")] + later));
      FlowsLayout(flows, rest);
      PassBlanks(flows[0].before, [Open("Flow", FlowAttributes(f.head))] + body, InFlowStats, tables);
      FlowReadBack(f.head);
      FlowParts(f.parts, flows[0].inside, later, f.head);
      OpenFlow(FlowAttributes(f.head), body, FlowOf(f), later, tables);
      FlowsRead(flows[1..], rest, tables.(flows := tables.flows[FlowOf(f).flowId := FlowOf(f)]));
    }
  }

  lemma ClassifiersLayout(cs: seq<Elem<Classifier>>, after: seq<Token>)
    requires cs != []
    ensures ClassifiersTokens(cs) + after ==
            Blanks(cs[0].before) + ([Open("Flow", ClassifierAttributes(cs[0].item))] +
              (Blanks(cs[0].inside) + ([End("Flow")] + (ClassifiersTokens(cs[1..]) + after))))
  {
    var c, later := cs[0], ClassifiersTokens(cs[1..]);
    var a := ClassifierAttributes(c.item);
    hide ClassifierAttributes;
    Regroup([Open("Flow", a)], Blanks(c.inside) + [End("Flow")], later + after);
    Regroup(Blanks(c.inside), [End("Flow")], later + after);
    Regroup(Leaf("Flow", a, c.inside), later, after);
    Regroup(Blanks(c.before), Leaf("Flow", a, c.inside) + later, after);
  }

  lemma {:induction false} ClassifiersRead(cs: seq<Elem<Classifier>>, rest: seq<Token>, tables: Tables)
    ensures DocumentFrom(InClassifier, tables, ClassifiersTokens(cs) + rest) ==
            DocumentFrom(InClassifier, tables.(classifiers := AddClassifiers(tables.classifiers, cs)), rest)
    decreases |cs|
  {
    hide DocumentFrom, ClassifierAttributes;
    if cs == [] {
      assert ClassifiersTokens(cs) + rest == rest;
    } else {
      var c, later := cs[0], ClassifiersTokens(cs[1..]) + rest;
      var a := ClassifierAttributes(c.item);
      var body := Blanks(c.inside) + ([End("Flow")] + later);
      ClassifiersLayout(cs, rest);
      var tables' := tables.(classifiers := tables.classifiers[c.item.flowId := c.item]);
      PassBlanks(c.before, [Open("Flow", a)] + body, InClassifier, tables);
      OpenClassifier(c.item, body, tables);
      PassBlanks(c.inside, [End("Flow")] + later, InClassifier, tables');
      Pass(End("Flow"), later, InClassifier, tables');
      ClassifiersRead(cs[1..], rest, tables');
    }
  }

  lemma SectionEnds(name: string, inside: nat, after: seq<Token>, state: Section, tables: Tables)
    ensures DocumentFrom(state, tables, Blanks(inside) + ([End(name)] + after)) == DocumentFrom(state, tables, after)
  {
    hide DocumentFrom;
    PassBlanks(inside, [End(name)] + after, state, tables);
    Pass(End(name), after, state, tables);
  }

  lemma FlowSection(section: Elem<seq<Elem<FlowText>>>, after: seq<Token>, state: Section, tables: Tables)
    requires forall i :: 0 <= i < |section.item| ==> ValidFlow(section.item[i].item)
    ensures DocumentFrom(state, tables, SectionTokens("FlowStats", section, FlowsTokens(section.item), after)) ==
            DocumentFrom(InFlowStats, tables.(flows := AddFlows(tables.flows, section.item)), after)
  {
    var body := FlowsTokens(section.item) + (Blanks(section.inside) + ([End("FlowStats")] + after));
    PassBlanks(section.before, [Open("FlowStats", map[])] + body, state, tables);
    assert ([Open("FlowStats", map[])] + body)[1..] == body;
    assert DocumentFrom(state, tables, [Open("FlowStats", map[])] + body) == DocumentFrom(InFlowStats, tables, body);
    FlowsRead(section.item, Blanks(section.inside) + ([End("FlowStats")] + after), tables);
    SectionEnds("FlowStats", section.inside, after, InFlowStats, tables.(flows := AddFlows(tables.flows, section.item)));
  }

  lemma ClassifierSection(section: Elem<seq<Elem<Classifier>>>, after: seq<Token>, state: Section, tables: Tables)
    ensures DocumentFrom(state, tables, SectionTokens("Ipv4FlowClassifier", section, ClassifiersTokens(section.item), after)) ==
            DocumentFrom(InClassifier, tables.(classifiers := AddClassifiers(tables.classifiers, section.item)), after)
  {
    var name := "Ipv4FlowClassifier";
    var body := ClassifiersTokens(section.item) + (Blanks(section.inside) + ([End(name)] + after));
    PassBlanks(section.before, [Open(name, map[])] + body, state, tables);
    assert ([Open(name, map[])] + body)[1..] == body;
    assert DocumentFrom(state, tables, [Open(name, map[])] + body) == DocumentFrom(InClassifier, tables, body);
    ClassifiersRead(section.item, Blanks(section.inside) + ([End(name)] + after), tables);
    SectionEnds(name, section.inside, after, InClassifier, tables.(classifiers := AddClassifiers(tables.classifiers, section.item)));
  }

  lemma ProbeSection(section: Elem<seq<Elem<seq<Elem<ProbeStats>>>>>, after: seq<Token>, state: Section, tables: Tables)
    ensures DocumentFrom(state, tables, SectionTokens("FlowProbes", section, ProbesTokens(section.item), after)) ==
            DocumentFrom(InProbes, tables.(probes := ProbesOf(section.item)), after)
  {
    var body := ProbesTokens(section.item) + (Blanks(section.inside) + ([End("FlowProbes")] + after));
    PassBlanks(section.before, [Open("FlowProbes", map[])] + body, state, tables);
    ProbesRead(section.item, section.inside, after, []);
    assert [] + ProbesOf(section.item) == ProbesOf(section.item);
    assert ([Open("FlowProbes", map[])] + body)[1..] == body;
  }

  /** Reading back a written document gives its tables; no nested loop runs past the end. */
  lemma DocumentRoundTrip(d: Document)
    requires forall i :: 0 <= i < |d.flows.item| ==> ValidFlow(d.flows.item[i].item)
    ensures ParseDocument(DocumentTokens(d)) == Some(TablesOf(d))
  {
    hide DocumentFrom;
    var last := Blanks(d.trailing) + [End("FlowMonitor"), EndDocument];
    var probes := SectionTokens("FlowProbes", d.probes, ProbesTokens(d.probes.item), last);
    var classifiers := SectionTokens("Ipv4FlowClassifier", d.classifiers, ClassifiersTokens(d.classifiers.item), probes);
    var flows := SectionTokens("FlowStats", d.flows, FlowsTokens(d.flows.item), classifiers);
    Pass(StartDocument, [Open("FlowMonitor", map[])] + flows, Init, EMPTY);
    Pass(Open("FlowMonitor", map[]), flows, Init, EMPTY);
    FlowSection(d.flows, classifiers, Init, EMPTY);
    var t1 := EMPTY.(flows := AddFlows(map[], d.flows.item));
    ClassifierSection(d.classifiers, probes, InFlowStats, t1);
    var t2 := t1.(classifiers := AddClassifiers(map[], d.classifiers.item));
    ProbeSection(d.probes, last, InClassifier, t2);
    Finish(d.trailing, t2.(probes := ProbesOf(d.probes.item)));
  }

  lemma Finish(trailing: nat, tables: Tables)
    ensures DocumentFrom(InProbes, tables, Blanks(trailing) + [End("FlowMonitor"), EndDocument]) == Some(tables)
  {
    PassBlanks(trailing, [End("FlowMonitor"), EndDocument], InProbes, tables);
    assert [End("FlowMonitor"), EndDocument][1..] == [EndDocument] && [EndDocument][1..] == [];
  }

  // ---------- Dropped bytes above 4 GiB ----------

  function WithExactPart(f: Flow, p: Part): Flow {
    match p
    case PacketsDropped(r) => f.(packetsDropped := f.packetsDropped + [r])
    case BytesDropped(r) => f.(bytesDropped := f.bytesDropped + [r])
    case Hist(h) => f.(histograms := f.histograms + [Histogram(h.name, h.nBins, Items(h.bins))])
  }

  /** The flow as written, every dropped reason with its full 64-bit number. */
  function WithExactParts(f: Flow, parts: seq<Elem<Part>>): Flow
    decreases |parts|
  {
    if parts == [] then f else WithExactParts(WithExactPart(f, parts[0].item), parts[1..])
  }

  predicate Fits(p: Part) { !p.Hist? ==> p.reason.number < 0x1_0000_0000 }

  lemma AppendInjective<T>(a: seq<T>, b: seq<T>, x: T, y: T)
    requires |a| == |b|
    ensures a + [x] == b + [y] <==> a == b && x == y
  {
    if a + [x] == b + [y] {
      assert a == (a + [x])[..|a|] && b == (b + [y])[..|b|] && (a + [x])[|a|] == x && (b + [y])[|b|] == y;
    }
  }

  lemma {:induction false} PartsSurvive(f: Flow, g: Flow, parts: seq<Elem<Part>>)
    requires |f.packetsDropped| == |g.packetsDropped| && |f.bytesDropped| == |g.bytesDropped| && |f.histograms| == |g.histograms|
    ensures WithParts(f, parts) == WithExactParts(g, parts) <==> f == g && forall i :: 0 <= i < |parts| ==> Fits(parts[i].item)
    decreases |parts|
  {
    if parts != [] {
      var p := parts[0].item;
      PartsSurvive(WithPart(f, p), WithExactPart(g, p), parts[1..]);
      match p {
        case PacketsDropped(r) => AppendInjective(f.packetsDropped, g.packetsDropped, Kept(r), r);
        case BytesDropped(r) => AppendInjective(f.bytesDropped, g.bytesDropped, Kept(r), r);
        case Hist(h) =>
          var x := Histogram(h.name, h.nBins, Items(h.bins));
          AppendInjective(f.histograms, g.histograms, x, x);
      }
      assert WithPart(f, p) == WithExactPart(g, p) <==> f == g && Fits(p);
      assert forall i :: 1 <= i < |parts| ==> parts[i] == parts[1..][i - 1];
    }
  }

  /** A flow comes back as it was written iff each of its dropped-reason numbers fits in 32 bits. */
  lemma FlowSurvives(f: FlowText)
    ensures FlowOf(f) == WithExactParts(f.head, f.parts) <==> forall i :: 0 <= i < |f.parts| ==> Fits(f.parts[i].item)
  {
    PartsSurvive(f.head, f.head, f.parts);
  }
}
