/** The sliding window of packets being animated (animatorscene.cpp), as a function of the scene's state.
    A cursor and a set stand in for filtering the whole trace at every tick. */
module PacketWindow {
  import opened Text

  datatype Packet = Packet(wireless: bool, fbTx: real, lbRx: Option<real>)

  /** The packet constructor: a transmission shorter than 10 microseconds counts as wireless. */
  function NewPacket(fbTx: real, lbTx: real, lbRx: real, wireless: bool): Packet {
    if lbTx - fbTx < 0.00001 || wireless then Packet(true, fbTx, None) else Packet(false, fbTx, Some(lbRx))
  }

  /** Less than ten millionths of a second, or said to be wireless: no reception times. Otherwise they are kept. */
  lemma NewPacketMeans(fbTx: real, lbTx: real, lbRx: real, wireless: bool)
    ensures var p := NewPacket(fbTx, lbTx, lbRx, wireless);
            && p.fbTx == fbTx
            && (p.wireless <==> wireless || 1000000.0 * (lbTx - fbTx) < 10.0)
            && (p.lbRx == if p.wireless then None else Some(lbRx))
  {
  }

  /** Packets in id order. Exactly the wireless ones carry no reception time. */
  ghost predicate Trace(ps: seq<Packet>) {
    forall i :: 0 <= i < |ps| ==> (ps[i].wireless <==> ps[i].lbRx.None?)
  }

  ghost predicate IsNewPacket(p: Packet) {
    exists fbTx, lbTx, lbRx, wireless :: p == NewPacket(fbTx, lbTx, lbRx, wireless)
  }

  /** A trace is what the constructor can make, and nothing else. */
  lemma TraceIsNewPackets(ps: seq<Packet>)
    ensures Trace(ps) <==> forall i :: 0 <= i < |ps| ==> IsNewPacket(ps[i])
  {
    forall i | 0 <= i < |ps| ensures IsNewPacket(ps[i]) <==> (ps[i].wireless <==> ps[i].lbRx.None?) {
      var p := ps[i];
      if p.wireless <==> p.lbRx.None? {
        assert p == NewPacket(p.fbTx, p.fbTx + 1.0, if p.wireless then 0.0 else p.lbRx.value, p.wireless);
      }
    }
  }

  ghost predicate Wired(ps: seq<Packet>) {
    forall i :: 0 <= i < |ps| ==> !ps[i].wireless && ps[i].lbRx.Some?
  }

  datatype Verdict = Now | Past | Future

  /** `isPacketInTimeWindow`. */
  function Classify(p: Packet, t: real, rate: real): Verdict {
    if p.wireless then
      if p.fbTx > t && p.fbTx < t + rate then Now
      else if p.fbTx < t then Past
      else Future
    else if p.lbRx.None? || t > p.lbRx.value then Past
    else if t < p.fbTx then Future
    else Now
  }

  /** What `purgeOldPackets` drops when it is not forced. */
  predicate Expired(p: Packet, t: real) {
    if p.wireless then t > p.fbTx else p.lbRx.Some? && p.lbRx.value < t
  }

  datatype Scene = Scene(cursor: nat, shown: set<nat>, lastTime: real, rate: real)

  function Kept(ps: seq<Packet>, shown: set<nat>, t: real): set<nat> {
    set i | i in shown && i < |ps| && !Expired(ps[i], t)
  }

  /** The loop of `packetForwardScan`. */
  function Scan(ps: seq<Packet>, s: Scene, i: nat, t: real): Scene
    decreases |ps| - i
  {
    if i >= |ps| then s
    else match Classify(ps[i], t, s.rate)
      case Now => Scan(ps, s.(shown := s.shown + {i}), i + 1, t)
      case Past => Scan(ps, s.(cursor := i), i + 1, t)
      case Future => s
  }

  /** What a step back in time does before the scan. */
  function Rewound(s: Scene, t: real): Scene {
    if s.lastTime > t then s.(cursor := 0, shown := {}) else s
  }

  /** `timeToUpdate(t, isReset)`. */
  function Updated(ps: seq<Packet>, s: Scene, t: real, isReset: bool): Scene {
    if isReset || ps == [] then s.(lastTime := t)
    else
      var s' := Scan(ps, Rewound(s, t), Rewound(s, t).cursor, t);
      s'.(shown := Kept(ps, s'.shown, t), lastTime := t)
  }

  /** `softReset`. */
  function Reset(ps: seq<Packet>, s: Scene): Scene {
    Updated(ps, s.(cursor := 0, shown := {}), 0.0, true)
  }

  // ---------- Whole runs ----------

  datatype Event = Tick(t: real) | SoftReset | SetRate(rate: real)

  function Step(ps: seq<Packet>, s: Scene, e: Event): Scene {
    match e
    case Tick(t) => Updated(ps, s, t, false)
    case SoftReset => Reset(ps, s)
    case SetRate(rate) => s.(rate := rate)
  }

  function Run(ps: seq<Packet>, s: Scene, es: seq<Event>): Scene {
    if es == [] then s else Step(ps, Run(ps, s, es[..|es| - 1]), es[|es| - 1])
  }

  function Loaded(rate: real): Scene { Scene(0, {}, 0.0, rate) }

  // ---------- The simple reading ----------

  predicate Visible(p: Packet, t: real) {
    !p.wireless && p.lbRx.Some? && p.fbTx <= t <= p.lbRx.value
  }

  ghost function Window(ps: seq<Packet>, t: real): set<nat> {
    set i: nat | i < |ps| && Visible(ps[i], t)
  }

  /** The wired packets among those shown. */
  function OnWire(ps: seq<Packet>, shown: set<nat>): set<nat> {
    set i | i in shown && i < |ps| && !ps[i].wireless
  }

  /** No packet comes, in id order, before a wired one that would be on screen while it is itself still to come; a
      wireless one must start strictly earlier. */
  ghost predicate InOrder(ps: seq<Packet>) {
    forall i, j :: 0 <= i < j < |ps| && Visible(ps[j], ps[j].fbTx) ==> MayPrecede(ps[i], ps[j].fbTx)
  }

  predicate MayPrecede(p: Packet, start: real) {
    if p.wireless then p.fbTx < start else p.lbRx.Some? && start <= p.lbRx.value ==> p.fbTx <= start
  }

  /** Every wired packet before the cursor is over or already in the set; none in the set is still to start. */
  ghost predicate Inv(ps: seq<Packet>, s: Scene) {
    && s.cursor <= |ps|
    && (forall i :: i in s.shown ==> i < |ps| && (ps[i].wireless || ps[i].fbTx <= s.lastTime))
    && (forall i :: 0 <= i < s.cursor ==> ps[i].wireless || i in s.shown || Expired(ps[i], s.lastTime))
  }

  /** The scan shows what lies in the window from `i` on, and leaves no wired packet that matters behind the cursor. */
  lemma {:induction false} ScanShows(ps: seq<Packet>, s: Scene, i: nat, t: real)
    requires Trace(ps) && InOrder(ps) && s.cursor <= i <= |ps|
    requires forall k :: s.cursor <= k < i ==> ps[k].wireless || k in s.shown || Expired(ps[k], t)
    ensures var s' := Scan(ps, s, i, t);
            && s'.lastTime == s.lastTime && s.cursor <= s'.cursor <= |ps|
            && (forall k :: k in s.shown ==> k in s'.shown) && (forall k :: k in s'.shown ==> k in s.shown || k < |ps|)
            && (forall k :: 0 <= k < |ps| && !ps[k].wireless ==>
                  (k in s'.shown <==> k in s.shown || (i <= k && Visible(ps[k], t))))
            && (forall k :: s.cursor <= k < s'.cursor ==> ps[k].wireless || k in s'.shown || Expired(ps[k], t))
    decreases |ps| - i
  {
    if i < |ps| {
      match Classify(ps[i], t, s.rate) {
        case Now => ScanShows(ps, s.(shown := s.shown + {i}), i + 1, t);
        case Past =>
          var s1 := s.(cursor := i);
          ScanShows(ps, s1, i + 1, t);
          var s' := Scan(ps, s1, i + 1, t);
          assert forall k :: k in s.shown ==> k in s'.shown;
        case Future => NothingBehind(ps, i, t, s.rate);
      }
    }
  }

  /** In a trace in order, nothing behind a packet still to come is visible. */
  lemma NothingBehind(ps: seq<Packet>, i: nat, t: real, rate: real)
    requires Trace(ps) && InOrder(ps) && i < |ps| && Classify(ps[i], t, rate) == Future
    ensures forall k :: i <= k < |ps| ==> !Visible(ps[k], t)
  {
    forall k | i <= k < |ps| ensures !Visible(ps[k], t) {
      assert k > i && Visible(ps[k], ps[k].fbTx) ==> MayPrecede(ps[i], ps[k].fbTx);
    }
  }

  lemma TickShowsWindow(ps: seq<Packet>, s: Scene, t: real)
    requires Trace(ps) && InOrder(ps) && Inv(ps, s)
    ensures Inv(ps, Updated(ps, s, t, false))
    ensures OnWire(ps, Updated(ps, s, t, false).shown) == Window(ps, t)
  {
    if ps != [] {
      var s0 := Rewound(s, t);
      ScanShows(ps, s0, s0.cursor, t);
      var s1 := Scan(ps, s0, s0.cursor, t);
      forall k ensures k in OnWire(ps, Kept(ps, s1.shown, t)) <==> k in Window(ps, t) {
      }
      forall k | 0 <= k < s1.cursor ensures ps[k].wireless || k in Kept(ps, s1.shown, t) || Expired(ps[k], t) {
        if k < s0.cursor { assert ps[k].wireless || k in s0.shown || Expired(ps[k], s0.lastTime); }
      }
      forall k | k in Kept(ps, s1.shown, t) ensures ps[k].wireless || ps[k].fbTx <= t {
        if k in s0.shown { assert ps[k].wireless || ps[k].fbTx <= s0.lastTime; }
      }
    }
  }

  lemma {:induction false} RunKeepsInv(ps: seq<Packet>, rate: real, es: seq<Event>)
    requires Trace(ps) && InOrder(ps)
    ensures Inv(ps, Run(ps, Loaded(rate), es))
  {
    if es != [] {
      RunKeepsInv(ps, rate, es[..|es| - 1]);
      var s := Run(ps, Loaded(rate), es[..|es| - 1]);
      match es[|es| - 1] {
        case Tick(t) => TickShowsWindow(ps, s, t);
        case SoftReset =>
        case SetRate(_) =>
      }
    }
  }

  /** The run `es` from a freshly loaded scene, followed by a tick at `t`, shows exactly the window, as far as wired
      packets go. */
  ghost predicate ExactAfter(ps: seq<Packet>, rate: real, es: seq<Event>, t: real) {
    OnWire(ps, Run(ps, Loaded(rate), es + [Tick(t)]).shown) == Window(ps, t)
  }

  lemma RunTick(ps: seq<Packet>, rate: real, es: seq<Event>, t: real)
    ensures Run(ps, Loaded(rate), es + [Tick(t)]) == Updated(ps, Run(ps, Loaded(rate), es), t, false)
  {
    assert (es + [Tick(t)])[..|es|] == es;
  }

  lemma OrderedIsExact(ps: seq<Packet>, rate: real, es: seq<Event>, t: real)
    requires Trace(ps) && InOrder(ps)
    ensures ExactAfter(ps, rate, es, t)
  {
    RunKeepsInv(ps, rate, es);
    RunTick(ps, rate, es, t);
    TickShowsWindow(ps, Run(ps, Loaded(rate), es), t);
  }

  /** A tick that meets a packet yet to start shows none of those listed behind it. */
  lemma FutureHides(ps: seq<Packet>, i: nat, j: nat, t: real, rate: real)
    requires i < j < |ps| && Classify(ps[i], t, rate) == Future
    ensures j !in Updated(ps, Loaded(rate), t, false).shown
  {
    ScanStops(ps, Rewound(Loaded(rate), t), 0, t, i);
    hide Scan, Classify;
  }

  /** A first tick that leaves out a visible packet is not exact. */
  lemma MissingIsInexact(ps: seq<Packet>, j: nat, t: real, rate: real)
    requires j < |ps| && Visible(ps[j], t) && j !in Updated(ps, Loaded(rate), t, false).shown
    ensures !ExactAfter(ps, rate, [], t)
  {
    RunTick(ps, rate, [], t);
    assert Run(ps, Loaded(rate), []) == Loaded(rate);
    hide Updated, Run, Visible;
    assert j in Window(ps, t);
    assert j !in OnWire(ps, Updated(ps, Loaded(rate), t, false).shown);
  }

  /** A packet that may not precede another is still to come when the other starts, for some update rate. */
  lemma StillToCome(p: Packet, t: real) returns (rate: real)
    requires (p.wireless <==> p.lbRx.None?) && !MayPrecede(p, t)
    ensures rate > 0.0 && Classify(p, t, rate) == Future
  {
    rate := if p.wireless && p.fbTx > t then (p.fbTx - t) / 2.0 else 1.0;
  }

  lemma DisorderMisses(ps: seq<Packet>) returns (rate: real, t: real)
    requires Trace(ps) && !InOrder(ps)
    ensures rate > 0.0 && !ExactAfter(ps, rate, [], t)
  {
    var i, j :| 0 <= i < j < |ps| && Visible(ps[j], ps[j].fbTx) && !MayPrecede(ps[i], ps[j].fbTx);
    hide InOrder, ExactAfter, Updated;
    t := ps[j].fbTx;
    rate := StillToCome(ps[i], t);
    FutureHides(ps, i, j, t, rate);
    MissingIsInexact(ps, j, t, rate);
  }

  /** On any trace, wireless packets among them: every tick of every run shows exactly the wired packets of the window
      iff the trace is in order. */
  lemma WindowExact(ps: seq<Packet>)
    requires Trace(ps)
    ensures InOrder(ps) <==> forall rate, es, t :: rate > 0.0 ==> ExactAfter(ps, rate, es, t)
    ensures InOrder(ps) ==> forall rate, es, t :: ExactAfter(ps, rate, es, t)
  {
    hide ExactAfter, InOrder;
    if InOrder(ps) {
      forall rate, es, t ensures ExactAfter(ps, rate, es, t) { OrderedIsExact(ps, rate, es, t); }
    } else {
      var rate, t := DisorderMisses(ps);
    }
  }

  lemma {:induction false} RunInRange(ps: seq<Packet>, rate: real, es: seq<Event>)
    ensures forall k :: k in Run(ps, Loaded(rate), es).shown ==> k < |ps|
  {
    if es != [] { RunInRange(ps, rate, es[..|es| - 1]); }
  }

  /** Without wireless packets the set is the window itself, iff the trace is in order. */
  lemma WiredWindowExact(ps: seq<Packet>)
    requires Wired(ps)
    ensures InOrder(ps) <==> forall rate, es, t :: rate > 0.0 ==> Run(ps, Loaded(rate), es + [Tick(t)]).shown == Window(ps, t)
  {
    WindowExact(ps);
    hide InOrder, Window;
    forall rate, es, t ensures ExactAfter(ps, rate, es, t) <==> Run(ps, Loaded(rate), es + [Tick(t)]).shown == Window(ps, t) {
      RunInRange(ps, rate, es + [Tick(t)]);
      var shown := Run(ps, Loaded(rate), es + [Tick(t)]).shown;
      assert OnWire(ps, shown) == shown;
    }
    hide ExactAfter;
  }

  /** The order in which the simulator writes a trace is enough, unless a wireless packet is listed before a wired one
      that starts at the very same time. */
  lemma SortedIsInOrder(ps: seq<Packet>)
    requires forall i, j :: 0 <= i < j < |ps| ==> ps[i].fbTx <= ps[j].fbTx
    ensures InOrder(ps) <==>
            forall i, j :: 0 <= i < j < |ps| && ps[i].wireless && Visible(ps[j], ps[j].fbTx) ==> ps[i].fbTx != ps[j].fbTx
  {
    if InOrder(ps) {
      forall i, j | 0 <= i < j < |ps| && ps[i].wireless && Visible(ps[j], ps[j].fbTx) ensures ps[i].fbTx != ps[j].fbTx {
        assert MayPrecede(ps[i], ps[j].fbTx);
      }
    }
  }

  lemma {:induction false} ScanStops(ps: seq<Packet>, s: Scene, i: nat, t: real, stop: nat)
    requires i <= stop < |ps| && Classify(ps[stop], t, s.rate) == Future
    requires forall k :: k in s.shown ==> k < stop
    ensures forall k :: k in Scan(ps, s, i, t).shown ==> k < stop
    decreases |ps| - i
  {
    match Classify(ps[i], t, s.rate) {
      case Now => ScanStops(ps, s.(shown := s.shown + {i}), i + 1, t, stop);
      case Past => ScanStops(ps, s.(cursor := i), i + 1, t, stop);
      case Future =>
    }
  }

  // ---------- Wireless packets ----------

  /** What a shown packet can be at time `t`: a wired one in its window, or a wireless one about to start. */
  predicate MayShow(p: Packet, t: real, maxRate: real) {
    Visible(p, t) || (p.wireless && t <= p.fbTx < t + maxRate)
  }

  ghost predicate Bounded(ps: seq<Packet>, s: Scene, t: real, maxRate: real) {
    s.rate <= maxRate && forall i :: i in s.shown ==> i < |ps| && MayShow(ps[i], t, maxRate)
  }

  lemma {:induction false} ScanBounded(ps: seq<Packet>, s: Scene, i: nat, t: real, maxRate: real)
    requires Trace(ps) && s.rate <= maxRate
    ensures var s' := Scan(ps, s, i, t);
            && s'.rate == s.rate
            && forall k :: k in s'.shown ==> k in s.shown || (k < |ps| && MayShow(ps[k], t, maxRate))
    decreases |ps| - i
  {
    if i < |ps| {
      match Classify(ps[i], t, s.rate) {
        case Now => ScanBounded(ps, s.(shown := s.shown + {i}), i + 1, t, maxRate);
        case Past => ScanBounded(ps, s.(cursor := i), i + 1, t, maxRate);
        case Future =>
      }
    }
  }

  lemma TickBounded(ps: seq<Packet>, s: Scene, t: real, maxRate: real)
    requires Trace(ps) && Bounded(ps, s, s.lastTime, maxRate)
    ensures Bounded(ps, Updated(ps, s, t, false), t, maxRate)
    ensures Updated(ps, s, t, false).lastTime == t
  {
    if ps != [] {
      var s0 := Rewound(s, t);
      ScanBounded(ps, s0, s0.cursor, t, maxRate);
    }
  }

  lemma {:induction false} RunBounded(ps: seq<Packet>, rate: real, es: seq<Event>, maxRate: real)
    requires Trace(ps) && rate <= maxRate && forall e :: e in es && e.SetRate? ==> e.rate <= maxRate
    ensures var s := Run(ps, Loaded(rate), es); Bounded(ps, s, s.lastTime, maxRate)
  {
    if es != [] {
      var e := es[|es| - 1];
      assert e in es;
      RunBounded(ps, rate, es[..|es| - 1], maxRate);
      if e.Tick? { TickBounded(ps, Run(ps, Loaded(rate), es[..|es| - 1]), e.t, maxRate); }
    }
  }

  /** On any trace, with wireless packets too and in any order, a tick shows only packets that may be shown. */
  lemma MixedTraceBounded(ps: seq<Packet>, rate: real, es: seq<Event>, t: real, maxRate: real)
    requires Trace(ps) && rate <= maxRate && forall e :: e in es && e.SetRate? ==> e.rate <= maxRate
    ensures forall i :: i in Run(ps, Loaded(rate), es + [Tick(t)]).shown ==> i < |ps| && MayShow(ps[i], t, maxRate)
  {
    RunBounded(ps, rate, es, maxRate);
    assert (es + [Tick(t)])[..|es|] == es;
    TickBounded(ps, Run(ps, Loaded(rate), es), t, maxRate);
  }

  /** A packet that ends a scan at `t`: a wired one whose transmission has not begun, or a wireless one that starts
      right now or not within the update interval. */
  predicate Blocks(p: Packet, t: real, rate: real) {
    if p.wireless then p.fbTx == t || (t < p.fbTx && t + rate <= p.fbTx)
    else p.lbRx.Some? && t < p.fbTx && t <= p.lbRx.value
  }

  predicate AboutToStart(p: Packet, t: real, rate: real) { p.wireless && t < p.fbTx < t + rate }

  /** Packet `k` is about to start, and the scan is not ended before it. */
  ghost predicate Due(ps: seq<Packet>, k: nat, t: real, rate: real) {
    k < |ps| && AboutToStart(ps[k], t, rate) && forall i :: 0 <= i < k ==> !Blocks(ps[i], t, rate)
  }

  /** The three verdicts on the fields of a packet. */
  lemma ClassifyMeans(p: Packet, t: real, rate: real)
    requires p.wireless <==> p.lbRx.None?
    ensures Classify(p, t, rate) == Future <==> Blocks(p, t, rate)
    ensures Classify(p, t, rate) == Now <==> Visible(p, t) || AboutToStart(p, t, rate)
    ensures Classify(p, t, rate) == Past <==> if p.wireless then p.fbTx < t else p.lbRx.value < t
  {
  }

  /** Every wireless packet before the cursor is in the set, or its start is over. */
  ghost predicate WirelessInv(ps: seq<Packet>, s: Scene) {
    && s.cursor <= |ps|
    && forall i :: 0 <= i < s.cursor && ps[i].wireless ==> i in s.shown || ps[i].fbTx < s.lastTime
  }

  lemma {:induction false} ScanWireless(ps: seq<Packet>, s: Scene, i: nat, t: real)
    requires Trace(ps) && s.cursor <= i <= |ps|
    requires forall k :: s.cursor <= k < i && ps[k].wireless ==> k in s.shown || ps[k].fbTx < t
    ensures var s' := Scan(ps, s, i, t);
            && s'.lastTime == s.lastTime && s'.rate == s.rate && s.cursor <= s'.cursor <= |ps|
            && (forall k :: k in s.shown ==> k in s'.shown)
            && (forall k :: s.cursor <= k < s'.cursor && ps[k].wireless ==> k in s'.shown || ps[k].fbTx < t)
    decreases |ps| - i
  {
    if i < |ps| {
      ClassifyMeans(ps[i], t, s.rate);
      match Classify(ps[i], t, s.rate) {
        case Now => ScanWireless(ps, s.(shown := s.shown + {i}), i + 1, t);
        case Past =>
          var s1 := s.(cursor := i);
          ScanWireless(ps, s1, i + 1, t);
          var s' := Scan(ps, s1, i + 1, t);
          assert forall k :: k in s.shown ==> k in s'.shown;
        case Future =>
      }
    }
  }

  /** The scan gets as far as `k` when nothing on the way blocks it. */
  lemma {:induction false} ScanReaches(ps: seq<Packet>, s: Scene, i: nat, t: real, k: nat)
    requires Trace(ps) && i <= k < |ps| && AboutToStart(ps[k], t, s.rate)
    requires forall j :: i <= j < k ==> !Blocks(ps[j], t, s.rate)
    ensures k in Scan(ps, s, i, t).shown
    decreases |ps| - i
  {
    ClassifyMeans(ps[i], t, s.rate);
    if i == k {
      ScanKeeps(ps, s.(shown := s.shown + {i}), i + 1, t, k);
    } else {
      match Classify(ps[i], t, s.rate) {
        case Now => ScanReaches(ps, s.(shown := s.shown + {i}), i + 1, t, k);
        case Past => ScanReaches(ps, s.(cursor := i), i + 1, t, k);
        case Future =>
      }
    }
  }

  lemma {:induction false} ScanKeeps(ps: seq<Packet>, s: Scene, i: nat, t: real, k: nat)
    requires k in s.shown
    ensures k in Scan(ps, s, i, t).shown
    decreases |ps| - i
  {
    if i < |ps| {
      match Classify(ps[i], t, s.rate) {
        case Now => ScanKeeps(ps, s.(shown := s.shown + {i}), i + 1, t, k);
        case Past => ScanKeeps(ps, s.(cursor := i), i + 1, t, k);
        case Future =>
      }
    }
  }

  lemma TickKeepsWireless(ps: seq<Packet>, s: Scene, t: real)
    requires Trace(ps) && WirelessInv(ps, s)
    ensures WirelessInv(ps, Updated(ps, s, t, false))
  {
    if ps != [] {
      var s0 := Rewound(s, t);
      ScanWireless(ps, s0, s0.cursor, t);
      var s1 := Scan(ps, s0, s0.cursor, t);
      forall k | 0 <= k < s1.cursor && ps[k].wireless ensures k in Kept(ps, s1.shown, t) || ps[k].fbTx < t {
        assert k < s0.cursor ==> k in s0.shown || ps[k].fbTx < s0.lastTime;
      }
    }
  }

  /** A tick shows every wireless packet about to start that nothing listed before it blocks. */
  lemma TickShowsWireless(ps: seq<Packet>, s: Scene, t: real, k: nat)
    requires Trace(ps) && WirelessInv(ps, s) && Due(ps, k, t, s.rate)
    ensures k in Updated(ps, s, t, false).shown
  {
    var s0 := Rewound(s, t);
    var s1 := Scan(ps, s0, s0.cursor, t);
    if k in s0.shown {
      ScanKeeps(ps, s0, s0.cursor, t, k);
    } else {
      ScanReaches(ps, s0, s0.cursor, t, k);
    }
    assert k in Kept(ps, s1.shown, t);
  }

  /** A wireless packet that is shown stays until its start is over, as long as time does not run backwards. */
  lemma KeptUntilStart(ps: seq<Packet>, s: Scene, t: real, k: nat)
    requires k in s.shown && k < |ps| && ps[k].wireless && s.lastTime <= t
    ensures k in Updated(ps, s, t, false).shown <==> t <= ps[k].fbTx
  {
    ScanKeeps(ps, s, s.cursor, t, k);
  }

  /** The update rate after a run. */
  function RateAfter(rate: real, es: seq<Event>): real {
    if es == [] then rate
    else match es[|es| - 1] case SetRate(r) => r case _ => RateAfter(rate, es[..|es| - 1])
  }

  lemma {:induction false} RunKeepsWireless(ps: seq<Packet>, rate: real, es: seq<Event>)
    requires Trace(ps)
    ensures WirelessInv(ps, Run(ps, Loaded(rate), es)) && Run(ps, Loaded(rate), es).rate == RateAfter(rate, es)
  {
    if es != [] {
      RunKeepsWireless(ps, rate, es[..|es| - 1]);
      var s := Run(ps, Loaded(rate), es[..|es| - 1]);
      match es[|es| - 1] {
        case Tick(t) =>
          TickKeepsWireless(ps, s, t);
          if ps != [] { ScanRate(ps, Rewound(s, t), Rewound(s, t).cursor, t); }
        case SoftReset =>
        case SetRate(_) =>
      }
    }
  }

  lemma {:induction false} ScanRate(ps: seq<Packet>, s: Scene, i: nat, t: real)
    ensures Scan(ps, s, i, t).rate == s.rate
    decreases |ps| - i
  {
    if i < |ps| {
      match Classify(ps[i], t, s.rate) {
        case Now => ScanRate(ps, s.(shown := s.shown + {i}), i + 1, t);
        case Past => ScanRate(ps, s.(cursor := i), i + 1, t);
        case Future =>
      }
    }
  }

  /** After any run, a tick shows every wireless packet that starts within the update interval in force, unless a
      packet listed before it is still to come. */
  lemma WirelessShown(ps: seq<Packet>, rate: real, es: seq<Event>, t: real, k: nat)
    requires Trace(ps) && Due(ps, k, t, RateAfter(rate, es))
    ensures k in Run(ps, Loaded(rate), es + [Tick(t)]).shown
  {
    RunKeepsWireless(ps, rate, es);
    RunTick(ps, rate, es, t);
    TickShowsWireless(ps, Run(ps, Loaded(rate), es), t, k);
  }

  /** A first tick shows a packet iff it is visible or about to start and nothing listed before it blocks the scan. */
  lemma FirstTickExact(ps: seq<Packet>, rate: real, t: real, k: nat)
    requires Trace(ps) && k < |ps|
    ensures k in Run(ps, Loaded(rate), [Tick(t)]).shown <==>
            (Visible(ps[k], t) || AboutToStart(ps[k], t, rate)) && forall i :: 0 <= i < k ==> !Blocks(ps[i], t, rate)
  {
    assert [Tick(t)][..0] == [];
    var s0 := Rewound(Loaded(rate), t);
    assert Run(ps, Loaded(rate), [Tick(t)]) == Updated(ps, Loaded(rate), t, false);
    ScanExact(ps, s0, 0, t, k);
    ClassifyMeans(ps[k], t, rate);
  }

  lemma {:induction false} ScanExact(ps: seq<Packet>, s: Scene, i: nat, t: real, k: nat)
    requires Trace(ps) && i <= |ps| && k < |ps| && k !in s.shown
    ensures k in Scan(ps, s, i, t).shown <==>
            i <= k && Classify(ps[k], t, s.rate) == Now && forall j :: i <= j < k ==> !Blocks(ps[j], t, s.rate)
    decreases |ps| - i
  {
    if i < |ps| {
      ClassifyMeans(ps[i], t, s.rate);
      match Classify(ps[i], t, s.rate) {
        case Now =>
          var s1 := s.(shown := s.shown + {i});
          if i == k { ScanKeeps(ps, s1, i + 1, t, k); } else { ScanExact(ps, s1, i + 1, t, k); }
        case Past => ScanExact(ps, s.(cursor := i), i + 1, t, k);
        case Future =>
      }
    }
  }

  /** Two wireless packets that hide a wired one listed behind them: one that starts at the very time of the tick,
      although the trace is sorted, and one that starts beyond the update rate. */
  lemma MixedTraceMisses()
    ensures var ps := [Packet(true, 1.0, None), Packet(false, 1.0, Some(2.0))];
            Trace(ps) && !InOrder(ps) && !ExactAfter(ps, 0.5, [], 1.0)
    ensures var ps := [Packet(true, 3.0, None), Packet(false, 1.0, Some(2.0))];
            Trace(ps) && !InOrder(ps) && !ExactAfter(ps, 0.5, [], 1.0)
  {
    forall start | start == 1.0 || start == 3.0
      ensures var ps := [Packet(true, start, None), Packet(false, 1.0, Some(2.0))]; !InOrder(ps) && !ExactAfter(ps, 0.5, [], 1.0)
    {
      var ps := [Packet(true, start, None), Packet(false, 1.0, Some(2.0))];
      assert Visible(ps[1], ps[1].fbTx) && !MayPrecede(ps[0], ps[1].fbTx);
      FutureHides(ps, 0, 1, 1.0, 0.5);
      MissingIsInexact(ps, 1, 1.0, 0.5);
    }
  }

  // ---------- The scene object ----------

  class AnimatorScene {
    const packets: seq<Packet>            // AnimPktMgr's packets, by id
    var animPktIterator: nat              // gAnimPktIterator
    var packetsToAnimate: set<nat>        // m_packetsToAnimate, by id
    var lastTime: real                    // m_lastTime
    var currentUpdateRate: real           // m_currentUpdateRate

    function State(): Scene
      reads this
    {
      Scene(animPktIterator, packetsToAnimate, lastTime, currentUpdateRate)
    }

    ghost predicate Valid()
      reads this
    {
      && Trace(packets) && animPktIterator <= |packets|
      && forall i :: i in packetsToAnimate ==> i < |packets|
    }

    constructor (packets: seq<Packet>, rate: real)
      requires Trace(packets)
      ensures Valid() && this.packets == packets && State() == Loaded(rate)
    {
      this.packets := packets;
      animPktIterator, packetsToAnimate, lastTime, currentUpdateRate := 0, {}, 0.0, rate;
    }

    method SetCurrentUpdateRate(rate: real)
      requires Valid()
      modifies this`currentUpdateRate
      ensures Valid() && State() == Step(packets, old(State()), SetRate(rate))
    {
      currentUpdateRate := rate;
    }

    method AddToPacketsToAnimate(id: nat)
      modifies this`packetsToAnimate
      ensures packetsToAnimate == old(packetsToAnimate) + {id}
    {
      if id in packetsToAnimate {
        return;
      }
      packetsToAnimate := packetsToAnimate + {id};
    }

    /** Collects the ids to drop first, because the map is being iterated, then erases them. */
    method PurgeOldPackets(t: real, force: bool)
      requires Valid()
      modifies this`packetsToAnimate
      ensures Valid()
      ensures packetsToAnimate == if force then {} else Kept(packets, old(packetsToAnimate), t)
    {
      var purgeList: seq<nat> := [];
      for i := 0 to |packets|
        invariant forall k :: k in purgeList <==> k < i && k in packetsToAnimate && (force || Expired(packets[k], t))
      {
        if i !in packetsToAnimate {
          continue;
        }
        var packet := packets[i];
        if (packet.wireless && t > packet.fbTx) || force {
          purgeList := purgeList + [i];
          continue;
        }
        if packet.wireless {
          continue;
        }
        if packet.lbRx.value < t || force {
          purgeList := purgeList + [i];
        }
      }
      for j := 0 to |purgeList|
        invariant packetsToAnimate == old(packetsToAnimate) - (set k | k in purgeList[..j])
      {
        assert purgeList[..j + 1] == purgeList[..j] + [purgeList[j]];
        packetsToAnimate := packetsToAnimate - {purgeList[j]};
      }
      assert purgeList[..|purgeList|] == purgeList;
    }

    method PacketForwardScan(t: real)
      requires Valid() && packets != []
      modifies this`animPktIterator, this`packetsToAnimate
      ensures Valid()
      ensures State() == var s := Rewound(old(State()), t); Scan(packets, s, s.cursor, t)
    {
      if lastTime > t {
        animPktIterator := 0;
        PurgeOldPackets(t, true);
      }
      assert State() == Rewound(old(State()), t);
      var i := animPktIterator;
      if i == |packets| {
        return;
      }
      while i != |packets|
        invariant i <= |packets| && Valid()
        invariant Scan(packets, State(), i, t) == var s := Rewound(old(State()), t); Scan(packets, s, s.cursor, t)
      {
        var retCode := Classify(packets[i], t, currentUpdateRate);
        if retCode == Now {
          AddToPacketsToAnimate(i);
        } else if retCode == Past {
          animPktIterator := i;
        } else {
          break;
        }
        i := i + 1;
      }
    }

    method ShowPackets(t: real)
      requires Valid()
      modifies this`packetsToAnimate
      ensures Valid() && packetsToAnimate == Kept(packets, old(packetsToAnimate), t)
    {
      PurgeOldPackets(t, false);
    }

    /** One tick of the clock. */
    method TimeToUpdate(t: real, isReset: bool)
      requires Valid()
      modifies this
      ensures Valid() && State() == Updated(packets, old(State()), t, isReset)
      ensures !isReset && InOrder(packets) && old(Inv(packets, State())) ==>
                Inv(packets, State()) && OnWire(packets, packetsToAnimate) == Window(packets, t)
      ensures !isReset && old(WirelessInv(packets, State())) ==>
                WirelessInv(packets, State()) && forall k: nat :: Due(packets, k, t, currentUpdateRate) ==> k in packetsToAnimate
    {
      ghost var s := State();
      if InOrder(packets) && Inv(packets, s) { TickShowsWindow(packets, s, t); }
      if WirelessInv(packets, s) {
        TickKeepsWireless(packets, s, t);
        forall k: nat | Due(packets, k, t, s.rate) ensures k in Updated(packets, s, t, false).shown {
          TickShowsWireless(packets, s, t, k);
        }
        if packets != [] { ScanRate(packets, Rewound(s, t), Rewound(s, t).cursor, t); }
      }
      hide InOrder, Inv, WirelessInv, Window, OnWire, Due;
      if !isReset && packets != [] {
        PacketForwardScan(t);
        ShowPackets(t);
      }
      lastTime := t;
    }

    method SoftReset()
      requires Valid()
      modifies this
      ensures Valid() && State() == Reset(packets, old(State())) == Scene(0, {}, 0.0, old(currentUpdateRate))
      ensures Inv(packets, State()) && WirelessInv(packets, State())
    {
      PurgeOldPackets(10000.0, true);
      animPktIterator := 0;
      TimeToUpdate(0.0, true);
    }
  }
}
