/** Replaying timed node and link updates (nodeupdatemanager.cpp, linkupdatemanager.cpp): a cursor that only moves on,
    steps back one entry after each call and starts over when time runs backwards. */
module UpdateReplay {
  import opened Text

  // ---------- Nodes ----------

  datatype Color = Color(r: bv8, g: bv8, b: bv8)

  class AnimNode {
    const nodeId: nat
    var color: Color
    var description: string
    var visible: bool

    /** What `updateNode` shows for a description; an empty one becomes the node's number. */
    function Caption(description: string): string {
      if description == "" then Decimal(nodeId) else description
    }

    /** A description stands for itself; an empty one becomes the numeral of the node's number. */
    lemma CaptionMeans(description: string)
      ensures description != "" ==> Caption(description) == description
      ensures AllDigits(Caption("")) && Numeral(Caption("")) == nodeId
    {
      NumeralOfDecimal(nodeId);
    }

    method UpdateNode(c: Color, description: string, visible: bool, skipColor: bool)
      modifies this
      ensures color == (if skipColor then old(color) else c)
      ensures this.description == Caption(description) && this.visible == visible
      ensures description != "" ==> this.description == description
      ensures description == "" ==> AllDigits(this.description) && Numeral(this.description) == nodeId
    {
      CaptionMeans(description);
      if !skipColor {
        color := c;
      }
      this.description := description;
      if this.description == "" {
        this.description := Decimal(nodeId);
      }
      this.visible := visible;
    }
  }

  datatype NodeUpdate = NodeUpdate(updateTime: real, animNode: AnimNode, color: Color, description: string,
                                   visible: bool, skipColor: bool)

  /** Length of the longest prefix of updates that are all due at `t`. */
  function NodeDue(us: seq<NodeUpdate>, t: real, k: nat): (p: nat)
    requires k <= |us|
    ensures k <= p <= |us| && forall i :: k <= i < p ==> us[i].updateTime <= t
    ensures p < |us| ==> us[p].updateTime > t
    decreases |us| - k
  {
    if k == |us| || us[k].updateTime > t then k else NodeDue(us, t, k + 1)
  }

  /** Index of the last of the first `k` updates that concerns `n`, or -1. */
  function LastFor(us: seq<NodeUpdate>, k: nat, n: AnimNode): (i: int)
    requires k <= |us|
    ensures i == -1 || (0 <= i < k && us[i].animNode == n)
    ensures forall j :: i < j < k ==> us[j].animNode != n
  {
    if k == 0 then -1 else if us[k - 1].animNode == n then k - 1 else LastFor(us, k - 1, n)
  }

  /** The same, among the updates that set a colour. */
  function LastColored(us: seq<NodeUpdate>, k: nat, n: AnimNode): (i: int)
    requires k <= |us|
    ensures i == -1 || (0 <= i < k && us[i].animNode == n && !us[i].skipColor)
    ensures forall j :: i < j < k ==> us[j].animNode != n || us[j].skipColor
  {
    if k == 0 then -1 else if us[k - 1].animNode == n && !us[k - 1].skipColor then k - 1 else LastColored(us, k - 1, n)
  }

  /** When the updates are in time order, the due prefix is all that is due. */
  lemma {:induction false} DueIsAllDue(us: seq<NodeUpdate>, t: real, k: nat)
    requires k <= |us| && forall i, j :: 0 <= i < j < |us| ==> us[i].updateTime <= us[j].updateTime
    ensures forall i :: k <= i < |us| ==> (i < NodeDue(us, t, k) <==> us[i].updateTime <= t)
    decreases |us| - k
  {
    if k < |us| && us[k].updateTime <= t { DueIsAllDue(us, t, k + 1); }
  }

  /** What a node looks like. */
  datatype View = View(color: Color, description: string, visible: bool)

  /** Applying the first `k` updates one by one to a node that looked like `v`. */
  function FromScratch(us: seq<NodeUpdate>, k: nat, n: AnimNode, v: View): View
    requires k <= |us|
  {
    if k == 0 then v
    else
      var before, u := FromScratch(us, k - 1, n, v), us[k - 1];
      if u.animNode != n then before
      else View(if u.skipColor then before.color else u.color, n.Caption(u.description), u.visible)
  }

  /** The last entry for a node decides its caption and visibility, the last colouring entry its colour; nothing else does. */
  lemma {:induction false} FromScratchIsLast(us: seq<NodeUpdate>, k: nat, n: AnimNode, v: View)
    requires k <= |us|
    ensures var i, c, w := LastFor(us, k, n), LastColored(us, k, n), FromScratch(us, k, n, v);
            && w.description == (if i >= 0 then n.Caption(us[i].description) else v.description)
            && w.visible == (if i >= 0 then us[i].visible else v.visible)
            && w.color == (if c >= 0 then us[c].color else v.color)
  {
    if k > 0 { FromScratchIsLast(us, k - 1, n, v); }
  }

  /** `n` shows what the first `k` updates say about it. */
  ghost predicate NodeShows(us: seq<NodeUpdate>, k: nat, n: AnimNode)
    requires k <= |us|
    reads n
  {
    var i, c := LastFor(us, k, n), LastColored(us, k, n);
    && (i >= 0 ==> n.description == n.Caption(us[i].description) && n.visible == us[i].visible)
    && (c >= 0 ==> n.color == us[c].color)
  }

  /** What the first `k` updates mention. */
  ghost function NodesOf(us: seq<NodeUpdate>, k: nat): set<AnimNode>
    requires k <= |us|
  {
    set i | 0 <= i < k :: us[i].animNode
  }

  lemma NodeMember(us: seq<NodeUpdate>, k: nat, i: nat)
    requires i < k <= |us|
    ensures us[i].animNode in NodesOf(us, k)
  {
  }

  /** Every node mentioned anywhere shows what the first `k` updates say. */
  ghost predicate AllShow(us: seq<NodeUpdate>, k: nat)
    requires k <= |us|
    reads NodesOf(us, |us|)
  {
    forall n :: n in NodesOf(us, |us|) ==> NodeShows(us, k, n)
  }

  /** Applies update `i` to nodes that show the first `shown` updates. When the entry is the last of those already
      shown, applying it again changes nothing that matters. */
  method ApplyUpdate(us: seq<NodeUpdate>, i: nat, ghost shown: nat)
    requires i < |us| && i <= shown <= i + 1 && AllShow(us, shown)
    modifies us[i].animNode
    ensures AllShow(us, i + 1)
  {
    var nu := us[i];
    nu.animNode.UpdateNode(nu.color, nu.description, nu.visible, nu.skipColor);
    forall n | n in NodesOf(us, |us|) ensures NodeShows(us, i + 1, n) {
      if n != nu.animNode { assert unchanged(n); }
    }
  }

  /** The loop of `updateNodes`: from `start` up to the first update that is not due yet, or the end. */
  method ReplayNodes(us: seq<NodeUpdate>, start: nat, ghost shown: nat, t: real, ghost due: nat) returns (i: nat)
    requires start <= shown <= due <= |us| && shown <= start + 1 && AllShow(us, shown)
    requires (forall j :: 0 <= j < due ==> us[j].updateTime <= t) && (due < |us| ==> us[due].updateTime > t)
    modifies NodesOf(us, due)
    ensures i == due && AllShow(us, due)
  {
    hide AllShow, NodesOf;
    i := start;
    ghost var k := shown;
    while i != |us|
      invariant start <= i <= k <= due && k <= i + 1 && AllShow(us, k)
      decreases |us| - i
    {
      if us[i].updateTime > t {
        break;
      }
      NodeMember(us, due, i);
      ApplyUpdate(us, i, k);
      i := i + 1;
      k := i;
    }
  }

  class NodeUpdateManager {
    var nodeUpdates: seq<NodeUpdate>    // m_nodeUpdates
    var currentIterator: nat            // m_currentIterator
    var lastTime: real                  // m_lastTime, unset before the first update is added
    ghost var applied: nat              // how many updates the nodes show

    ghost predicate Valid()
      reads this, NodesOf(nodeUpdates, |nodeUpdates|)
    {
      nodeUpdates == [] || (
        && currentIterator <= applied <= |nodeUpdates| && applied <= currentIterator + 1
        && (forall i :: 0 <= i < applied ==> nodeUpdates[i].updateTime <= lastTime)
        && AllShow(nodeUpdates, applied))
    }

    constructor ()
      ensures Valid() && nodeUpdates == []
    {
      nodeUpdates := [];
    }

    method SystemReset()
      modifies this
      ensures Valid() && nodeUpdates == []
    {
      nodeUpdates := [];
    }

    method AddNodeUpdate(updateTime: real, animNode: AnimNode, color: Color, description: string, visible: bool, skipColor: bool)
      modifies this
      ensures Valid() && currentIterator == 0 && lastTime == 0.0
      ensures nodeUpdates == old(nodeUpdates) + [NodeUpdate(updateTime, animNode, color, description, visible, skipColor)]
    {
      nodeUpdates := nodeUpdates + [NodeUpdate(updateTime, animNode, color, description, visible, skipColor)];
      currentIterator := 0;
      lastTime := 0.0;
      applied := 0;
    }

    /** The clock moves to `t`; when it moves back, the replay starts over. */
    method SetTime(t: real) returns (backward: bool)
      requires Valid() && nodeUpdates != []
      modifies this
      ensures Valid() && nodeUpdates == old(nodeUpdates) && lastTime == t
      ensures backward <==> t < old(lastTime)
      ensures currentIterator == if backward then 0 else old(currentIterator)
    {
      backward := false;
      if t < lastTime {
        currentIterator := 0;
        backward := true;
        applied := 0;
      }
      lastTime := t;
    }

    /** Moves to `t`. Whatever was shown before, the nodes now show what the updates due at `t` say;
        nodes that no due update mentions are left alone. */
    method UpdateNodes(t: real) returns (updated: bool)
      requires Valid()
      modifies this, NodesOf(nodeUpdates, NodeDue(nodeUpdates, t, 0))
      ensures Valid() && nodeUpdates == old(nodeUpdates)
      ensures AllShow(nodeUpdates, NodeDue(nodeUpdates, t, 0))
      ensures nodeUpdates != [] ==> lastTime == t && var due := NodeDue(nodeUpdates, t, 0);
              currentIterator == if due == |nodeUpdates| || due == 0 then due else due - 1
      ensures updated <==> nodeUpdates != [] &&
                           (t < old(lastTime) || old(currentIterator) < NodeDue(nodeUpdates, t, 0))
    {
      hide NodeDue, NodeShows;
      if nodeUpdates == [] {
        return false;
      }
      updated := SetTime(t);
      var i := ReplayNodes(nodeUpdates, currentIterator, applied, t, NodeDue(nodeUpdates, t, 0));
      updated := updated || currentIterator < i;
      currentIterator, applied := if i != |nodeUpdates| && i != 0 then i - 1 else i, i;
    }
  }

  // ---------- Links ----------

  class AnimLink {
    var currentLinkDescription: Option<string>    // m_currentLinkDescription

    method UpdateCurrentLinkDescription(description: string)
      modifies this
      ensures currentLinkDescription == Some(description)
    {
      currentLinkDescription := Some(description);
    }
  }

  datatype LinkUpdate = LinkUpdate(updateTime: real, animLink: AnimLink, description: string)

  function LinkDue(us: seq<LinkUpdate>, t: real, k: nat): (p: nat)
    requires k <= |us|
    ensures k <= p <= |us| && forall i :: k <= i < p ==> us[i].updateTime <= t
    ensures p < |us| ==> us[p].updateTime > t
    decreases |us| - k
  {
    if k == |us| || us[k].updateTime > t then k else LinkDue(us, t, k + 1)
  }

  function LastForLink(us: seq<LinkUpdate>, k: nat, l: AnimLink): (i: int)
    requires k <= |us|
    ensures i == -1 || (0 <= i < k && us[i].animLink == l)
    ensures forall j :: i < j < k ==> us[j].animLink != l
  {
    if k == 0 then -1 else if us[k - 1].animLink == l then k - 1 else LastForLink(us, k - 1, l)
  }

  ghost predicate LinkShows(us: seq<LinkUpdate>, k: nat, l: AnimLink)
    requires k <= |us|
    reads l
  {
    var i := LastForLink(us, k, l);
    i >= 0 ==> l.currentLinkDescription == Some(us[i].description)
  }

  /** What the first `k` updates mention. */
  ghost function LinksOf(us: seq<LinkUpdate>, k: nat): set<AnimLink>
    requires k <= |us|
  {
    set i | 0 <= i < k :: us[i].animLink
  }

  lemma LinkMember(us: seq<LinkUpdate>, k: nat, i: nat)
    requires i < k <= |us|
    ensures us[i].animLink in LinksOf(us, k)
  {
  }

  ghost predicate AllLinksShow(us: seq<LinkUpdate>, k: nat)
    requires k <= |us|
    reads LinksOf(us, |us|)
  {
    forall l :: l in LinksOf(us, |us|) ==> LinkShows(us, k, l)
  }

  method ApplyLinkUpdate(us: seq<LinkUpdate>, i: nat, ghost shown: nat)
    requires i < |us| && i <= shown <= i + 1 && AllLinksShow(us, shown)
    modifies us[i].animLink
    ensures AllLinksShow(us, i + 1)
  {
    us[i].animLink.UpdateCurrentLinkDescription(us[i].description);
    forall l | l in LinksOf(us, |us|) ensures LinkShows(us, i + 1, l) {
      if l != us[i].animLink { assert unchanged(l); }
    }
  }

  method ReplayLinks(us: seq<LinkUpdate>, start: nat, ghost shown: nat, t: real, ghost due: nat) returns (i: nat)
    requires start <= shown <= due <= |us| && shown <= start + 1 && AllLinksShow(us, shown)
    requires (forall j :: 0 <= j < due ==> us[j].updateTime <= t) && (due < |us| ==> us[due].updateTime > t)
    modifies LinksOf(us, due)
    ensures i == due && AllLinksShow(us, due)
  {
    hide AllLinksShow, LinksOf;
    i := start;
    ghost var k := shown;
    while i != |us|
      invariant start <= i <= k <= due && k <= i + 1 && AllLinksShow(us, k)
      decreases |us| - i
    {
      if us[i].updateTime > t {
        break;
      }
      LinkMember(us, due, i);
      ApplyLinkUpdate(us, i, k);
      i := i + 1;
      k := i;
    }
  }

  class LinkUpdateManager {
    var timeLinkDescriptions: seq<LinkUpdate>    // m_timeLinkDescriptions
    var currentIterator: nat
    var lastTime: real
    ghost var applied: nat

    ghost predicate Valid()
      reads this, LinksOf(timeLinkDescriptions, |timeLinkDescriptions|)
    {
      timeLinkDescriptions == [] || (
        && currentIterator <= applied <= |timeLinkDescriptions| && applied <= currentIterator + 1
        && (forall i :: 0 <= i < applied ==> timeLinkDescriptions[i].updateTime <= lastTime)
        && AllLinksShow(timeLinkDescriptions, applied))
    }

    constructor ()
      ensures Valid() && timeLinkDescriptions == []
    {
      timeLinkDescriptions := [];
    }

    method SystemReset()
      modifies this
      ensures Valid() && timeLinkDescriptions == []
    {
      timeLinkDescriptions := [];
    }

    method AddLinkUpdate(updateTime: real, animLink: AnimLink, description: string)
      modifies this
      ensures Valid() && currentIterator == 0 && lastTime == 0.0
      ensures timeLinkDescriptions == old(timeLinkDescriptions) + [LinkUpdate(updateTime, animLink, description)]
    {
      timeLinkDescriptions := timeLinkDescriptions + [LinkUpdate(updateTime, animLink, description)];
      currentIterator, lastTime, applied := 0, 0.0, 0;
    }

    method SetTime(t: real) returns (backward: bool)
      requires Valid() && timeLinkDescriptions != []
      modifies this
      ensures Valid() && timeLinkDescriptions == old(timeLinkDescriptions) && lastTime == t
      ensures backward <==> t < old(lastTime)
      ensures currentIterator == if backward then 0 else old(currentIterator)
    {
      backward := false;
      if t < lastTime {
        currentIterator := 0;
        backward := true;
        applied := 0;
      }
      lastTime := t;
    }

    /** Moves to `t`; every link mentioned by a due update shows its last due description, the others are left alone. */
    method UpdateLinks(t: real) returns (updated: bool)
      requires Valid()
      modifies this, LinksOf(timeLinkDescriptions, LinkDue(timeLinkDescriptions, t, 0))
      ensures Valid() && timeLinkDescriptions == old(timeLinkDescriptions)
      ensures AllLinksShow(timeLinkDescriptions, LinkDue(timeLinkDescriptions, t, 0))
      ensures timeLinkDescriptions != [] ==> lastTime == t && var due := LinkDue(timeLinkDescriptions, t, 0);
              currentIterator == if due == |timeLinkDescriptions| || due == 0 then due else due - 1
      ensures updated <==> timeLinkDescriptions != [] &&
                           (t < old(lastTime) || old(currentIterator) < LinkDue(timeLinkDescriptions, t, 0))
    {
      hide LinkDue, LinkShows;
      if timeLinkDescriptions == [] {
        return false;
      }
      updated := SetTime(t);
      var i := ReplayLinks(timeLinkDescriptions, currentIterator, applied, t, LinkDue(timeLinkDescriptions, t, 0));
      updated := updated || currentIterator < i;
      currentIterator, applied := if i != |timeLinkDescriptions| && i != 0 then i - 1 else i, i;
    }
  }
}
