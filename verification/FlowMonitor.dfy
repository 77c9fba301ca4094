/** Flow-monitor documents: the tables they carry, the token streams they are written as, and what the
    state-dependent parser of flowmonxmlparser.cpp makes of any token stream. */
module FlowMonitor {
  import opened Text

  type uint8 = n: nat | n < 0x100
  type uint16 = n: nat | n < 0x1_0000
  type uint32 = n: nat | n < 0x1_0000_0000
  type uint64 = n: nat | n < 0x1_0000_0000_0000_0000

  // ---------- Tables ----------

  datatype Bin = Bin(index: uint32, start: real, width: real, count: uint32)
  datatype Histogram = Histogram(name: string, nBins: uint32, bins: seq<Bin>)
  datatype Reason = Reason(reasonCode: uint8, number: uint64)

  datatype Flow = Flow(flowId: uint32, timeFirstTxPacket: real, timeFirstRxPacket: real, timeLastTxPacket: real,
                       timeLastRxPacket: real, delaySum: real, jitterSum: real, lastDelay: real,
                       txBytes: uint64, rxBytes: uint64, txPackets: uint64, rxPackets: uint64,
                       lostPackets: uint64, timesForwarded: uint64,
                       bytesDropped: seq<Reason>, packetsDropped: seq<Reason>, histograms: seq<Histogram>)

  datatype Classifier = Classifier(flowId: uint32, sourceAddress: string, destinationAddress: string,
                                   protocol: uint16, sourcePort: uint16, destinationPort: uint16)

  datatype ProbeStats = ProbeStats(flowId: uint32, packets: uint64, bytes: uint64, delayFromFirstProbeSum: real)

  type Probe = seq<ProbeStats>

  /** What the statistics scene holds: two maps by flow id, and the last list of probes. */
  datatype Tables = Tables(flows: map<uint32, Flow>, classifiers: map<uint32, Classifier>, probes: seq<Probe>)

  // ---------- Tokens ----------

  /** An attribute value as written: a numeral, a decimal fraction (a time without its "ns"), or text. */
  datatype Value = Whole(n: nat) | Fraction(r: real) | Words(s: string)

  type Attributes = map<string, Value>

  /** `Blank` is any token without a name: white space, a comment, a processing instruction. */
  datatype Token = StartDocument | Open(name: string, attributes: Attributes) | End(name: string) | Blank | EndDocument

  function Name(t: Token): string {
    match t
    case Open(n, _) => n
    case End(n) => n
    case _ => ""
  }

  /** `toUInt`, `toULong` and `toUShort`: 0 for what is missing, malformed or out of range. */
  function Unsigned(a: Attributes, name: string, bound: nat): (n: nat)
    requires bound > 0
    ensures n < bound
  {
    if name in a && a[name].Whole? && a[name].n < bound then a[name].n else 0
  }

  function UInt(a: Attributes, name: string): uint32 { Unsigned(a, name, 0x1_0000_0000) }
  function ULong(a: Attributes, name: string): uint64 { Unsigned(a, name, 0x1_0000_0000_0000_0000) }
  function UShort(a: Attributes, name: string): uint16 { Unsigned(a, name, 0x1_0000) }

  function Double(a: Attributes, name: string): real {
    if name in a then (match a[name] case Fraction(r) => r case Whole(n) => n as real case Words(_) => 0.0) else 0.0
  }

  function Str(a: Attributes, name: string): string {
    if name in a && a[name].Words? then a[name].s else ""
  }

  // ---------- What each element's attributes say ----------

  function ReadBin(a: Attributes): Bin { Bin(UInt(a, "index"), Double(a, "start"), Double(a, "width"), UInt(a, "count")) }

  /** Both readers convert with `toUInt`, whatever the width of the fields. */
  function ReadReason(a: Attributes, number: string): Reason { Reason(UInt(a, "reasonCode") % 0x100, UInt(a, number)) }

  function ReadProbeStats(a: Attributes): ProbeStats {
    ProbeStats(UInt(a, "flowId"), ULong(a, "packets"), ULong(a, "bytes"), Double(a, "delayFromFirstProbeSum"))
  }

  function ReadFlow(a: Attributes): Flow {
    Flow(UInt(a, "flowId"), Double(a, "timeFirstTxPacket"), Double(a, "timeFirstRxPacket"), Double(a, "timeLastTxPacket"),
         Double(a, "timeLastRxPacket"), Double(a, "delaySum"), Double(a, "jitterSum"), Double(a, "lastDelay"),
         ULong(a, "txBytes"), ULong(a, "rxBytes"), ULong(a, "txPackets"), ULong(a, "rxPackets"),
         ULong(a, "lostPackets"), ULong(a, "timesForwarded"), [], [], [])
  }

  function ReadClassifier(a: Attributes): Classifier {
    Classifier(UInt(a, "flowId"), Str(a, "sourceAddress"), Str(a, "destinationAddress"),
               UShort(a, "protocol"), UShort(a, "sourcePort"), UShort(a, "destinationPort"))
  }

  // ---------- The nested loops; `None` when the closing name never comes and the loop spins for ever ----------

  function BinsFrom(name: string, unread: seq<Token>, bins: seq<Bin>): Option<(seq<Bin>, seq<Token>)>
    decreases |unread|
  {
    if unread == [] then None
    else
      var t, rest := unread[0], unread[1..];
      if Name(t) == name then Some((bins, rest))
      else BinsFrom(name, rest, if Name(t) == "bin" && t.Open? then bins + [ReadBin(t.attributes)] else bins)
  }

  function ProbeFrom(unread: seq<Token>, probe: Probe): Option<(Probe, seq<Token>)>
    decreases |unread|
  {
    if unread == [] then None
    else
      var t, rest := unread[0], unread[1..];
      if Name(t) == "FlowProbe" then Some((probe, rest))
      else ProbeFrom(rest, if Name(t) == "FlowStats" && t.Open? then probe + [ReadProbeStats(t.attributes)] else probe)
  }

  lemma {:induction false} BinsConsume(name: string, unread: seq<Token>, bins: seq<Bin>)
    ensures BinsFrom(name, unread, bins).Some? ==> |BinsFrom(name, unread, bins).value.1| < |unread|
    decreases |unread|
  {
    if unread != [] {
      var t, rest := unread[0], unread[1..];
      BinsConsume(name, rest, if Name(t) == "bin" && t.Open? then bins + [ReadBin(t.attributes)] else bins);
    }
  }

  lemma {:induction false} ProbeConsumes(unread: seq<Token>, probe: Probe)
    ensures ProbeFrom(unread, probe).Some? ==> |ProbeFrom(unread, probe).value.1| < |unread|
    decreases |unread|
  {
    if unread != [] {
      var t, rest := unread[0], unread[1..];
      ProbeConsumes(rest, if Name(t) == "FlowStats" && t.Open? then probe + [ReadProbeStats(t.attributes)] else probe);
    }
  }

  function ProbesFrom(unread: seq<Token>, probes: seq<Probe>): Option<(seq<Probe>, seq<Token>)>
    decreases |unread|
  {
    if unread == [] then None
    else
      var t, rest := unread[0], unread[1..];
      if Name(t) == "FlowProbes" then Some((probes, rest))
      else if Name(t) == "FlowProbe" && t.Open? then
        ProbeConsumes(rest, []);
        var inner := ProbeFrom(rest, []);
        if inner.None? then None else ProbesFrom(inner.value.1, probes + [inner.value.0])
      else ProbesFrom(rest, probes)
  }

  predicate IsHistogram(name: string) {
    name == "delayHistogram" || name == "jitterHistogram" || name == "flowInterruptionsHistogram" || name == "packetSizeHistogram"
  }

  /** The attributes of the current token; an end element has none. */
  function AttributesOf(t: Token): Attributes { if t.Open? then t.attributes else map[] }

  function HistogramFrom(t: Token, rest: seq<Token>): Option<(Histogram, seq<Token>)> {
    var bins := BinsFrom(Name(t), rest, []);
    if bins.None? then None
    else Some((Histogram(Name(t), UInt(AttributesOf(t), "nBins"), bins.value.0), bins.value.1))
  }

  function FlowFrom(unread: seq<Token>, flow: Flow): Option<(Flow, seq<Token>)>
    decreases |unread|
  {
    if unread == [] then None
    else
      var t, rest := unread[0], unread[1..];
      if Name(t) == "Flow" then Some((flow, rest))
      else if Name(t) == "packetsDropped" && t.Open? then
        FlowFrom(rest, flow.(packetsDropped := flow.packetsDropped + [ReadReason(t.attributes, "number")]))
      else if Name(t) == "bytesDropped" && t.Open? then
        FlowFrom(rest, flow.(bytesDropped := flow.bytesDropped + [ReadReason(t.attributes, "bytes")]))
      else if IsHistogram(Name(t)) then
        BinsConsume(Name(t), rest, []);
        var h := HistogramFrom(t, rest);
        if h.None? then None else FlowFrom(h.value.1, flow.(histograms := flow.histograms + [h.value.0]))
      else FlowFrom(rest, flow)
  }

  lemma {:induction false} ProbesConsume(unread: seq<Token>, probes: seq<Probe>)
    ensures ProbesFrom(unread, probes).Some? ==> |ProbesFrom(unread, probes).value.1| < |unread|
    decreases |unread|
  {
    if unread != [] {
      var t, rest := unread[0], unread[1..];
      if Name(t) != "FlowProbes" {
        if Name(t) == "FlowProbe" && t.Open? {
          ProbeConsumes(rest, []);
          var inner := ProbeFrom(rest, []);
          if inner.Some? { ProbesConsume(inner.value.1, probes + [inner.value.0]); }
        } else {
          ProbesConsume(rest, probes);
        }
      }
    }
  }

  lemma {:induction false} FlowConsumes(unread: seq<Token>, flow: Flow)
    ensures FlowFrom(unread, flow).Some? ==> |FlowFrom(unread, flow).value.1| < |unread|
    decreases |unread|
  {
    if unread != [] {
      var t, rest := unread[0], unread[1..];
      if Name(t) == "Flow" {
      } else if Name(t) == "packetsDropped" && t.Open? {
        FlowConsumes(rest, flow.(packetsDropped := flow.packetsDropped + [ReadReason(t.attributes, "number")]));
      } else if Name(t) == "bytesDropped" && t.Open? {
        FlowConsumes(rest, flow.(bytesDropped := flow.bytesDropped + [ReadReason(t.attributes, "bytes")]));
      } else if IsHistogram(Name(t)) {
        BinsConsume(Name(t), rest, []);
        var h := HistogramFrom(t, rest);
        if h.Some? { FlowConsumes(h.value.1, flow.(histograms := flow.histograms + [h.value.0])); }
      } else {
        FlowConsumes(rest, flow);
      }
    }
  }

  // ---------- The outer loop ----------

  datatype Section = Init | InFlowStats | InClassifier | InProbes

  /** `doParse` from the next token on. */
  function DocumentFrom(state: Section, tables: Tables, unread: seq<Token>): Option<Tables>
    decreases |unread|
  {
    if unread == [] then Some(tables)
    else
      var t, rest := unread[0], unread[1..];
      if !t.Open? then DocumentFrom(state, tables, rest)
      else if t.name == "FlowStats" then DocumentFrom(InFlowStats, tables, rest)
      else if t.name == "Ipv4FlowClassifier" then DocumentFrom(InClassifier, tables, rest)
      else if t.name == "FlowProbes" then
        ProbesConsume(rest, []);
        var probes := ProbesFrom(rest, []);
        if probes.None? then None else DocumentFrom(InProbes, tables.(probes := probes.value.0), probes.value.1)
      else if t.name == "Flow" && state == InFlowStats then
        FlowConsumes(rest, ReadFlow(t.attributes));
        var flow := FlowFrom(rest, ReadFlow(t.attributes));
        if flow.None? then None
        else DocumentFrom(state, tables.(flows := tables.flows[flow.value.0.flowId := flow.value.0]), flow.value.1)
      else if t.name == "Flow" && state == InClassifier then
        var c := ReadClassifier(t.attributes);
        DocumentFrom(state, tables.(classifiers := tables.classifiers[c.flowId := c]), rest)
      else DocumentFrom(state, tables, rest)
  }

  const EMPTY := Tables(map[], map[], [])

  function ParseDocument(tokens: seq<Token>): Option<Tables> { DocumentFrom(Init, EMPTY, tokens) }
}
