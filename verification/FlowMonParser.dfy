/** `FlowMonXmlparser`: an object that advances a shared reader and fills the scene's tables. */
module FlowMonParser {
  import opened Text
  import opened FlowMonitor

  /** `QXmlStreamReader` over a token list. `name()` and `attributes()` look at the current token. */
  class Reader {
    var current: Token
    var unread: seq<Token>

    constructor (tokens: seq<Token>)
      ensures unread == tokens && current == Blank
    {
      current, unread := Blank, tokens;
    }

    predicate AtEnd()
      reads this
    {
      unread == []
    }

    method ReadNext() returns (token: Token)
      requires !AtEnd()
      modifies this
      ensures token == current == old(unread[0]) && unread == old(unread[1..])
    {
      current, unread := unread[0], unread[1..];
      token := current;
    }
  }

  /** The nested loops return `None` where the original would read past the end for ever. */
  class FlowMonXmlParser {
    const reader: Reader
    var state: Section              // m_state
    var parsingComplete: bool       // m_parsingComplete
    var scene: Tables               // the tables of FlowMonStatsScene

    constructor (tokens: seq<Token>)
      ensures fresh(reader) && reader.unread == tokens
      ensures state == Init && !parsingComplete && scene == EMPTY
    {
      reader := new Reader(tokens);
      state, parsingComplete, scene := Init, false, EMPTY;
    }

    method ParseHistogram(name: string) returns (r: Option<Histogram>)
      requires reader.current.Open? || reader.current.End?
      modifies reader
      ensures var bins := BinsFrom(name, old(reader.unread), []);
              if bins.None? then r.None?
              else r == Some(Histogram(name, UInt(AttributesOf(old(reader.current)), "nBins"), bins.value.0)) &&
                   reader.unread == bins.value.1
    {
      var nBins := UInt(AttributesOf(reader.current), "nBins");
      var bins: seq<Bin> := [];
      if reader.AtEnd() { return None; }
      var token := reader.ReadNext();
      assert [reader.current] + reader.unread == old(reader.unread);
      while Name(reader.current) != name
        invariant token == reader.current
        invariant BinsFrom(name, [reader.current] + reader.unread, bins) == BinsFrom(name, old(reader.unread), [])
        decreases |reader.unread|
      {
        assert ([reader.current] + reader.unread)[1..] == reader.unread;
        if Name(reader.current) == "bin" && !token.End? {
          assert token.Open?;
          bins := bins + [ReadBin(reader.current.attributes)];
        }
        if reader.AtEnd() { return None; }
        ghost var unread := reader.unread;
        token := reader.ReadNext();
        assert [reader.current] + reader.unread == unread;
      }
      return Some(Histogram(name, nBins, bins));
    }

    method ParseFlowProbe() returns (r: Option<Probe>)
      modifies reader
      ensures var inner := ProbeFrom(old(reader.unread), []);
              if inner.None? then r.None? else r == Some(inner.value.0) && reader.unread == inner.value.1
    {
      var probe: Probe := [];
      if reader.AtEnd() { return None; }
      var token := reader.ReadNext();
      assert [reader.current] + reader.unread == old(reader.unread);
      while Name(reader.current) != "FlowProbe"
        invariant token == reader.current
        invariant ProbeFrom([reader.current] + reader.unread, probe) == ProbeFrom(old(reader.unread), [])
        decreases |reader.unread|
      {
        assert ([reader.current] + reader.unread)[1..] == reader.unread;
        if Name(reader.current) == "FlowStats" && !token.End? {
          assert token.Open?;
          probe := probe + [ReadProbeStats(reader.current.attributes)];
        }
        if reader.AtEnd() { return None; }
        ghost var unread := reader.unread;
        token := reader.ReadNext();
        assert [reader.current] + reader.unread == unread;
      }
      assert ([reader.current] + reader.unread)[1..] == reader.unread;
      return Some(probe);
    }

    method ParseFlowProbes() returns (r: Option<seq<Probe>>)
      modifies reader, this`state
      ensures state == InProbes
      ensures var inner := ProbesFrom(old(reader.unread), []);
              if inner.None? then r.None? else r == Some(inner.value.0) && reader.unread == inner.value.1
    {
      state := InProbes;
      var flowProbes: seq<Probe> := [];
      if reader.AtEnd() { return None; }
      var token := reader.ReadNext();
      assert [reader.current] + reader.unread == old(reader.unread);
      while Name(reader.current) != "FlowProbes"
        invariant token == reader.current && state == InProbes
        invariant ProbesFrom([reader.current] + reader.unread, flowProbes) == ProbesFrom(old(reader.unread), [])
        decreases |reader.unread|
      {
        assert ([reader.current] + reader.unread)[1..] == reader.unread;
        if Name(reader.current) == "FlowProbe" && !token.End? {
          assert token.Open?;
          ProbeConsumes(reader.unread, []);
          var probe := ParseFlowProbe();
          if probe.None? { return None; }
          flowProbes := flowProbes + [probe.value];
        }
        if reader.AtEnd() { return None; }
        ghost var unread := reader.unread;
        token := reader.ReadNext();
        assert [reader.current] + reader.unread == unread;
      }
      assert ([reader.current] + reader.unread)[1..] == reader.unread;
      return Some(flowProbes);
    }

    method ParsePacketsDropped(flow: Flow) returns (flow': Flow)
      requires reader.current.Open?
      ensures flow' == flow.(packetsDropped := flow.packetsDropped + [ReadReason(reader.current.attributes, "number")])
    {
      var reason := ReadReason(reader.current.attributes, "number");
      flow' := flow.(packetsDropped := flow.packetsDropped + [reason]);
    }

    method ParseBytesDropped(flow: Flow) returns (flow': Flow)
      requires reader.current.Open?
      ensures flow' == flow.(bytesDropped := flow.bytesDropped + [ReadReason(reader.current.attributes, "bytes")])
    {
      var reason := ReadReason(reader.current.attributes, "bytes");
      flow' := flow.(bytesDropped := flow.bytesDropped + [reason]);
    }

    method ParseFlowStatsFlow() returns (r: Option<Flow>)
      requires reader.current.Open?
      modifies reader
      ensures var inner := FlowFrom(old(reader.unread), ReadFlow(old(reader.current.attributes)));
              if inner.None? then r.None? else r == Some(inner.value.0) && reader.unread == inner.value.1
    {
      var flow := ReadFlow(reader.current.attributes);
      ghost var flow0 := flow;
      if reader.AtEnd() { return None; }
      var token := reader.ReadNext();
      assert [reader.current] + reader.unread == old(reader.unread);
      while Name(reader.current) != "Flow"
        invariant token == reader.current
        invariant FlowFrom([reader.current] + reader.unread, flow) == FlowFrom(old(reader.unread), flow0)
        decreases |reader.unread|
      {
        assert ([reader.current] + reader.unread)[1..] == reader.unread;
        if Name(reader.current) == "packetsDropped" && !token.End? {
          flow := ParsePacketsDropped(flow);
        }
        if Name(reader.current) == "bytesDropped" && !token.End? {
          flow := ParseBytesDropped(flow);
        }
        if IsHistogram(Name(reader.current)) {
          BinsConsume(Name(reader.current), reader.unread, []);
          var histogram := ParseHistogram(Name(reader.current));
          if histogram.None? { return None; }
          flow := flow.(histograms := flow.histograms + [histogram.value]);
        }
        if reader.AtEnd() { return None; }
        ghost var unread := reader.unread;
        token := reader.ReadNext();
        assert [reader.current] + reader.unread == unread;
      }
      assert ([reader.current] + reader.unread)[1..] == reader.unread;
      return Some(flow);
    }

    /** One step of the outer loop; `None` when a nested loop never ends. */
    method ParseNext() returns (r: Option<Element>)
      requires !parsingComplete
      modifies this`state, this`parsingComplete, reader
      ensures old(reader.unread) == [] ==> r == Some(Nothing) && reader.unread == [] && state == old(state) && parsingComplete
      ensures old(reader.unread) != [] && r.Some? ==> |reader.unread| < |old(reader.unread)|
      ensures r.Some? ==> parsingComplete == (reader.unread == [])
      ensures DocumentFrom(old(state), scene, old(reader.unread)) ==
              if r.None? then None else DocumentFrom(state, Added(scene, r.value), reader.unread)
    {
      if reader.AtEnd() {
        parsingComplete := true;
        return Some(Nothing);
      }
      var element := Nothing;
      var token := reader.ReadNext();
      if token.Open? {
        if Name(reader.current) == "FlowStats" {
          state := InFlowStats;
        }
        if Name(reader.current) == "Ipv4FlowClassifier" {
          state := InClassifier;
        }
        if Name(reader.current) == "FlowProbes" {
          ProbesConsume(reader.unread, []);
          var probes := ParseFlowProbes();
          if probes.None? { return None; }
          element := Probes(probes.value);
        } else if Name(reader.current) == "Flow" {
          if state == InFlowStats {
            FlowConsumes(reader.unread, ReadFlow(reader.current.attributes));
            var flow := ParseFlowStatsFlow();
            if flow.None? { return None; }
            element := StatsFlow(flow.value);
          } else if state == InClassifier {
            element := ClassifierFlow(ReadClassifier(reader.current.attributes));
          }
        }
      }
      if reader.AtEnd() { parsingComplete := true; }
      return Some(element);
    }

    /** `doParse`: false when it would never return. */
    method DoParse() returns (finishes: bool)
      requires !parsingComplete
      modifies this, reader
      ensures var tables := DocumentFrom(old(state), old(scene), old(reader.unread));
              if finishes then parsingComplete && tables == Some(scene) else tables == None
    {
      while !parsingComplete
        invariant parsingComplete ==> reader.unread == []
        invariant DocumentFrom(state, scene, reader.unread) == DocumentFrom(old(state), old(scene), old(reader.unread))
        decreases |reader.unread| + (if parsingComplete then 0 else 1)
      {
        var parsedElement := ParseNext();
        if parsedElement.None? { return false; }
        match parsedElement.value
        case Nothing =>
        case StatsFlow(f) => scene := scene.(flows := scene.flows[f.flowId := f]);
        case ClassifierFlow(c) => scene := scene.(classifiers := scene.classifiers[c.flowId := c]);
        case Probes(ps) => scene := scene.(probes := ps);
      }
      return true;
    }
  }

  /** `FlowMonParsedElement`, as far as `doParse` looks at it. */
  datatype Element = Nothing | StatsFlow(flow: Flow) | ClassifierFlow(classifier: Classifier) | Probes(probes: seq<Probe>)

  /** `addFlowStat`, `addIpv4Classifier` and `addFlowProbes`. */
  function Added(tables: Tables, e: Element): Tables {
    match e
    case Nothing => tables
    case StatsFlow(f) => tables.(flows := tables.flows[f.flowId := f])
    case ClassifierFlow(c) => tables.(classifiers := tables.classifiers[c.flowId := c])
    case Probes(ps) => tables.(probes := ps)
  }
}
