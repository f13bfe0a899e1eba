/** Building a layout from a neighbourhood: validation, banding, ordering and
    placement, end to end. */
module Diagram {
  import opened Bands
  import opened Sorting
  import opened Geometry
  import opened ArcDepths
  import opened Layouts
  import opened Placement
  import opened Clearance
  import opened DrawnCrossings
  import opened BandPairs
  import opened Census
  import opened Ordering

  const LAYER_PHYSICAL: int := 1
  const LAYER_VIRTUAL: int := 2
  const LAYER_SERVICE: int := 3

  predicate ValidLayer(layer: int) { layer == LAYER_PHYSICAL || layer == LAYER_VIRTUAL || layer == LAYER_SERVICE }

  function LayersTopDown(): seq<int> { [LAYER_SERVICE, LAYER_VIRTUAL, LAYER_PHYSICAL] }

  datatype NodeIn = NodeIn(id: string, name: string, kind: string, layer: int)
  datatype EdgeIn = EdgeIn(from: string, to: string, layer: int)
  datatype Input = Input(nodes: seq<NodeIn>, edges: seq<EdgeIn>, subject: string)

  datatype Result<T> = Ok(value: T) | Invalid

  // ---- what is accepted

  predicate ValidNode(n: NodeIn) { n.id != "" && n.name != "" && ValidLayer(n.layer) }

  ghost predicate Known(nodes: seq<NodeIn>, id: string) { exists i :: 0 <= i < |nodes| && nodes[i].id == id }

  ghost predicate ValidEdge(nodes: seq<NodeIn>, e: EdgeIn) {
    1 <= e.layer <= 3 && e.from != e.to && Known(nodes, e.from) && Known(nodes, e.to)
  }

  ghost predicate ValidNodes(nodes: seq<NodeIn>) {
    && (forall i :: 0 <= i < |nodes| ==> nodes[i].id != "" && nodes[i].name != "" && 1 <= nodes[i].layer <= 3)
    && (forall i, j :: 0 <= i < j < |nodes| ==> nodes[i].id != nodes[j].id)
  }

  ghost predicate Acceptable(in_: Input) {
    && ValidNodes(in_.nodes)
    && (in_.subject == "" || Known(in_.nodes, in_.subject))
    && (forall i :: 0 <= i < |in_.edges| ==> ValidEdge(in_.nodes, in_.edges[i]))
  }

  /** byID finds exactly the nodes, each at its place. */
  ghost predicate Indexes(nodes: seq<NodeIn>, byID: map<string, nat>) {
    && (forall i :: 0 <= i < |nodes| ==> nodes[i].id in byID && byID[nodes[i].id] == i)
    && (forall id :: id in byID ==> byID[id] < |nodes| && nodes[byID[id]].id == id)
  }

  method IndexNodes(nodes: seq<NodeIn>) returns (r: Result<map<string, nat>>)
    ensures r.Ok? <==> ValidNodes(nodes)
    ensures r.Ok? ==> Indexes(nodes, r.value)
  {
    var byID: map<string, nat> := map[];
    for i := 0 to |nodes|
      invariant ValidNodes(nodes[..i]) && Indexes(nodes[..i], byID)
    {
      var n := nodes[i];
      if !ValidNode(n) {
        return Invalid;
      }
      if n.id in byID {
        assert nodes[..i][byID[n.id]] == nodes[byID[n.id]];
        return Invalid;
      }
      byID := byID[n.id := i];
      assert nodes[..i + 1] == nodes[..i] + [n];
    }
    assert nodes[..|nodes|] == nodes;
    r := Ok(byID);
  }

  /** Each edge resolved to the two nodes it names. */
  ghost predicate Resolves(nodes: seq<NodeIn>, edges: seq<EdgeIn>, ends: seq<Ends>) {
    && |ends| == |edges|
    && forall i :: 0 <= i < |edges| ==>
      && ends[i].from < |nodes| && ends[i].to < |nodes| && ends[i].from != ends[i].to
      && nodes[ends[i].from].id == edges[i].from && nodes[ends[i].to].id == edges[i].to
  }

  /** The nodes joined to n by the first k edges, in edge order. */
  ghost function Neighbours(ends: seq<Ends>, n: nat, k: nat): seq<nat>
    requires k <= |ends|
  {
    if k == 0 then []
    else
      Neighbours(ends, n, k - 1)
      + (if ends[k - 1].from == n then [ends[k - 1].to] else [])
      + (if ends[k - 1].to == n then [ends[k - 1].from] else [])
  }

  ghost predicate Adjacency(count: nat, ends: seq<Ends>, adj: seq<seq<nat>>) {
    |adj| == count && forall n :: 0 <= n < count ==> adj[n] == Neighbours(ends, n, |ends|)
  }

  lemma {:induction false} NeighbourStep(ends: seq<Ends>, e: Ends, n: nat, k: nat)
    requires k <= |ends|
    ensures Neighbours(ends + [e], n, k) == Neighbours(ends, n, k)
  {
    if k > 0 { NeighbourStep(ends, e, n, k - 1); }
  }

  lemma NoAdjacency(count: nat)
    ensures Adjacency(count, [], seq(count, _ => []))
  {
  }

  lemma AdjacencyStep(count: nat, ends: seq<Ends>, e: Ends, before: seq<seq<nat>>, after: seq<seq<nat>>)
    requires Adjacency(count, ends, before) && e.from < count && e.to < count && e.from != e.to
    requires after == before[e.from := before[e.from] + [e.to]][e.to := before[e.to] + [e.from]]
    ensures Adjacency(count, ends + [e], after)
  {
    forall n | 0 <= n < count ensures after[n] == Neighbours(ends + [e], n, |ends| + 1) {
      NeighbourStep(ends, e, n, |ends|);
    }
  }

  method ResolveEdges(nodes: seq<NodeIn>, edges: seq<EdgeIn>, byID: map<string, nat>)
    returns (r: Result<(seq<Ends>, seq<seq<nat>>)>)
    requires Indexes(nodes, byID)
    ensures r.Ok? <==> forall i :: 0 <= i < |edges| ==> ValidEdge(nodes, edges[i])
    ensures r.Ok? ==> Resolves(nodes, edges, r.value.0) && Adjacency(|nodes|, r.value.0, r.value.1)
  {
    hide Adjacency;
    NoAdjacency(|nodes|);
    var ends: seq<Ends>, adj: seq<seq<nat>> := [], seq(|nodes|, _ => []);
    for i := 0 to |edges|
      invariant forall j :: 0 <= j < i ==> ValidEdge(nodes, edges[j])
      invariant Resolves(nodes, edges[..i], ends) && Adjacency(|nodes|, ends, adj) && |adj| == |nodes|
    {
      var e := edges[i];
      if !ValidLayer(e.layer) || e.from == e.to || e.from !in byID || e.to !in byID {
        assert !ValidEdge(nodes, edges[i]);
        return Invalid;
      }
      var a, b := byID[e.from], byID[e.to];
      ghost var before := adj;
      adj := adj[a := adj[a] + [b]];
      adj := adj[b := adj[b] + [a]];
      AdjacencyStep(|nodes|, ends, Ends(a, b), before, adj);
      ends := ends + [Ends(a, b)];
    }
    assert edges[..|edges|] == edges;
    r := Ok((ends, adj));
  }

  // ---- bands

  /** Bands are the non-empty layers, top layer first, each listing its nodes in
      the caller's order. */
  ghost predicate Grouped(nodes: seq<NodeIn>, bands: seq<seq<nat>>, layers: seq<int>) {
    && |layers| == |bands|
    && (forall b, c :: 0 <= b < c < |layers| ==> layers[b] > layers[c])
    && (forall b :: 0 <= b < |bands| ==> bands[b] != [])
    && (forall b, k :: 0 <= b < |bands| && 0 <= k < |bands[b]| ==> bands[b][k] < |nodes| && nodes[bands[b][k]].layer == layers[b])
    && (forall b, j, k :: 0 <= b < |bands| && 0 <= j < k < |bands[b]| ==> bands[b][j] < bands[b][k])
  }

  method Members(nodes: seq<NodeIn>, layer: int) returns (members: seq<nat>)
    ensures forall k :: 0 <= k < |members| ==> members[k] < |nodes| && nodes[members[k]].layer == layer
    ensures forall j, k :: 0 <= j < k < |members| ==> members[j] < members[k]
    ensures forall i :: 0 <= i < |nodes| && nodes[i].layer == layer ==> i in members
  {
    members := [];
    for i := 0 to |nodes|
      invariant forall k :: 0 <= k < |members| ==> members[k] < i && nodes[members[k]].layer == layer
      invariant forall j, k :: 0 <= j < k < |members| ==> members[j] < members[k]
      invariant forall j :: 0 <= j < i && nodes[j].layer == layer ==> j in members
    {
      if nodes[i].layer == layer {
        members := members + [i];
      }
    }
  }

  /** bandOf and pos place exactly the nodes that bands lists. */
  ghost predicate Placing(bands: seq<seq<nat>>, bandOf: seq<nat>, pos: seq<nat>)
    requires |bandOf| == |pos|
  {
    forall b, k :: 0 <= b < |bands| && 0 <= k < |bands[b]| ==>
      bands[b][k] < |pos| && bandOf[bands[b][k]] == b && pos[bands[b][k]] == k
  }

  /** Everything above the given layer is in its band. */
  ghost predicate BandsAbove(nodes: seq<NodeIn>, layer: int, bands: seq<seq<nat>>, layers: seq<int>, bandOf: seq<nat>, pos: seq<nat>) {
    && Grouped(nodes, bands, layers) && |bandOf| == |pos| == |nodes| && Placing(bands, bandOf, pos)
    && (forall b :: 0 <= b < |layers| ==> layers[b] > layer)
    && (forall i :: 0 <= i < |nodes| && nodes[i].layer > layer ==>
          bandOf[i] < |bands| && i in bands[bandOf[i]] && layers[bandOf[i]] == nodes[i].layer)
  }

  lemma LayerDone(nodes: seq<NodeIn>, layer: int, bands: seq<seq<nat>>, layers: seq<int>, bandOf: seq<nat>, pos: seq<nat>, members: seq<nat>)
    requires BandsAbove(nodes, layer, bands, layers, bandOf, pos) && members == []
    requires forall i :: 0 <= i < |nodes| && nodes[i].layer == layer ==> i in members
    ensures BandsAbove(nodes, layer - 1, bands, layers, bandOf, pos)
  {
  }

  lemma LayerAdded(nodes: seq<NodeIn>, layer: int, bands: seq<seq<nat>>, layers: seq<int>, bandOf: seq<nat>, pos: seq<nat>,
                   members: seq<nat>, bandOf': seq<nat>, pos': seq<nat>)
    requires BandsAbove(nodes, layer, bands, layers, bandOf, pos) && members != [] && |bandOf'| == |pos'| == |nodes|
    requires forall k :: 0 <= k < |members| ==> members[k] < |nodes| && nodes[members[k]].layer == layer
    requires forall j, k :: 0 <= j < k < |members| ==> members[j] < members[k]
    requires forall i :: 0 <= i < |nodes| && nodes[i].layer == layer ==> i in members
    requires forall k :: 0 <= k < |members| ==> bandOf'[members[k]] == |bands| && pos'[members[k]] == k
    requires forall i :: 0 <= i < |nodes| && nodes[i].layer != layer ==> bandOf'[i] == bandOf[i] && pos'[i] == pos[i]
    ensures BandsAbove(nodes, layer - 1, bands + [members], layers + [layer], bandOf', pos')
  {
    AddedGroup(nodes, layer, bands, layers, members);
    var bands', layers' := bands + [members], layers + [layer];
    hide Grouped;
    AddedPlaces(nodes, layer, bands, layers, bandOf, pos, members, bandOf', pos');
    hide Placing;
    forall i | 0 <= i < |nodes| && nodes[i].layer > layer - 1
      ensures bandOf'[i] < |bands'| && i in bands'[bandOf'[i]] && layers'[bandOf'[i]] == nodes[i].layer
    {
      if nodes[i].layer == layer { var k :| 0 <= k < |members| && members[k] == i; }
    }
  }

  lemma AddedGroup(nodes: seq<NodeIn>, layer: int, bands: seq<seq<nat>>, layers: seq<int>, members: seq<nat>)
    requires Grouped(nodes, bands, layers) && (forall b :: 0 <= b < |layers| ==> layers[b] > layer) && members != []
    requires forall k :: 0 <= k < |members| ==> members[k] < |nodes| && nodes[members[k]].layer == layer
    requires forall j, k :: 0 <= j < k < |members| ==> members[j] < members[k]
    ensures |layers| == |bands| && Grouped(nodes, bands + [members], layers + [layer])
  {
  }

  lemma AddedPlaces(nodes: seq<NodeIn>, layer: int, bands: seq<seq<nat>>, layers: seq<int>, bandOf: seq<nat>, pos: seq<nat>,
                    members: seq<nat>, bandOf': seq<nat>, pos': seq<nat>)
    requires Grouped(nodes, bands, layers) && |bandOf| == |pos| == |bandOf'| == |pos'| == |nodes| && Placing(bands, bandOf, pos)
    requires forall b :: 0 <= b < |layers| ==> layers[b] > layer
    requires forall k :: 0 <= k < |members| ==> members[k] < |nodes| && bandOf'[members[k]] == |bands| && pos'[members[k]] == k
    requires forall i :: 0 <= i < |nodes| && nodes[i].layer != layer ==> bandOf'[i] == bandOf[i] && pos'[i] == pos[i]
    ensures Placing(bands + [members], bandOf', pos')
  {
  }

  method GroupIntoBands(nodes: seq<NodeIn>) returns (bands: seq<seq<nat>>, layers: seq<int>, bandOf: seq<nat>, pos: seq<nat>)
    requires forall i :: 0 <= i < |nodes| ==> ValidLayer(nodes[i].layer)
    ensures Grouped(nodes, bands, layers) && |bandOf| == |pos| == |nodes|
    ensures forall i :: 0 <= i < |nodes| ==> bandOf[i] < |bands| && i in bands[bandOf[i]] && layers[bandOf[i]] == nodes[i].layer
    ensures forall b, k :: 0 <= b < |bands| && 0 <= k < |bands[b]| ==> bandOf[bands[b][k]] == b && pos[bands[b][k]] == k
  {
    bands, layers := [], [];
    bandOf, pos := seq(|nodes|, _ => 0), seq(|nodes|, _ => 0);
    assert BandsAbove(nodes, 3, bands, layers, bandOf, pos);
    hide BandsAbove, Grouped, Placing;
    for t := 0 to 3
      invariant |bandOf| == |pos| == |nodes| && BandsAbove(nodes, 3 - t, bands, layers, bandOf, pos)
    {
      var layer := LayersTopDown()[t];
      var members := Members(nodes, layer);
      if members != [] {
        ghost var bandOf0, pos0 := bandOf, pos;
        bandOf, pos := Number(nodes, members, layer, |bands|, bandOf, pos);
        LayerAdded(nodes, layer, bands, layers, bandOf0, pos0, members, bandOf, pos);
        bands, layers := bands + [members], layers + [layer];
      } else {
        LayerDone(nodes, layer, bands, layers, bandOf, pos, members);
      }
    }
    AllBanded(nodes, bands, layers, bandOf, pos);
  }

  lemma AllBanded(nodes: seq<NodeIn>, bands: seq<seq<nat>>, layers: seq<int>, bandOf: seq<nat>, pos: seq<nat>)
    requires BandsAbove(nodes, 0, bands, layers, bandOf, pos) && forall i :: 0 <= i < |nodes| ==> ValidLayer(nodes[i].layer)
    ensures Grouped(nodes, bands, layers) && |bandOf| == |pos| == |nodes|
    ensures forall i :: 0 <= i < |nodes| ==> bandOf[i] < |bands| && i in bands[bandOf[i]] && layers[bandOf[i]] == nodes[i].layer
    ensures forall b, k :: 0 <= b < |bands| && 0 <= k < |bands[b]| ==> bandOf[bands[b][k]] == b && pos[bands[b][k]] == k
  {
  }

  method Number(nodes: seq<NodeIn>, members: seq<nat>, ghost layer: int, b: nat, bandOf0: seq<nat>, pos0: seq<nat>)
    returns (bandOf: seq<nat>, pos: seq<nat>)
    requires |bandOf0| == |pos0| == |nodes|
    requires forall k :: 0 <= k < |members| ==> members[k] < |nodes| && nodes[members[k]].layer == layer
    requires forall j, k :: 0 <= j < k < |members| ==> members[j] < members[k]
    ensures |bandOf| == |pos| == |nodes|
    ensures forall k :: 0 <= k < |members| ==> bandOf[members[k]] == b && pos[members[k]] == k
    ensures forall i :: 0 <= i < |nodes| && nodes[i].layer != layer ==> bandOf[i] == bandOf0[i] && pos[i] == pos0[i]
  {
    bandOf, pos := bandOf0, pos0;
    for slot := 0 to |members|
      invariant |bandOf| == |pos| == |nodes|
      invariant forall k :: 0 <= k < slot ==> bandOf[members[k]] == b && pos[members[k]] == k
      invariant forall i :: 0 <= i < |nodes| && nodes[i].layer != layer ==> bandOf[i] == bandOf0[i] && pos[i] == pos0[i]
    {
      var n := members[slot];
      bandOf, pos := bandOf[n := b], pos[n := slot];
    }
  }

  // ---- the accepted input as a graph

  datatype Start = Start(g: Graph, bands: seq<seq<nat>>, pos: seq<nat>)

  ghost predicate Represents(in_: Input, s: Start) {
    && s.g.Valid() && IsOrdering(s.g, s.bands) && s.pos == Slots(s.g, s.bands)
    && |s.g.bandOf| == |in_.nodes|
    && Resolves(in_.nodes, in_.edges, s.g.ends) && Adjacency(|in_.nodes|, s.g.ends, s.g.adj)
    && (exists layers :: Grouped(in_.nodes, s.bands, layers))
    && (if in_.subject == "" then s.g.subject == -1
        else 0 <= s.g.subject < |in_.nodes| && in_.nodes[s.g.subject].id == in_.subject)
  }

  lemma {:induction false} NeighboursKnown(ends: seq<Ends>, n: nat, k: nat, count: nat)
    requires k <= |ends| && forall i :: 0 <= i < |ends| ==> ends[i].from < count && ends[i].to < count
    ensures forall j :: 0 <= j < |Neighbours(ends, n, k)| ==> Neighbours(ends, n, k)[j] < count
  {
    if k > 0 { NeighboursKnown(ends, n, k - 1, count); }
  }

  method NewState(in_: Input) returns (r: Result<Start>)
    ensures r.Ok? <==> Acceptable(in_)
    ensures r.Ok? ==> Represents(in_, r.value)
  {
    hide ValidEdge, Grouped, Resolves, Neighbours, Adjacency, IsOrdering, Slots;
    var index := IndexNodes(in_.nodes);
    if index.Invalid? {
      return Invalid;
    }
    var byID := index.value;
    var subject: int := -1;
    if in_.subject != "" {
      if in_.subject !in byID {
        return Invalid;
      }
      subject := byID[in_.subject];
      assert Known(in_.nodes, in_.subject);
    }
    var edges := ResolveEdges(in_.nodes, in_.edges, byID);
    if edges.Invalid? {
      return Invalid;
    }
    var (ends, adj) := edges.value;
    var bands, layers, bandOf, pos := GroupIntoBands(in_.nodes);
    var g := Graph(bandOf, |bands|, ends, adj, subject);
    Accepted(in_, g, bands, layers, pos);
    r := Ok(Start(g, bands, pos));
  }

  lemma Accepted(in_: Input, g: Graph, bands: seq<seq<nat>>, layers: seq<int>, pos: seq<nat>)
    requires |g.bandOf| == |pos| == |in_.nodes| && g.bandCount == |bands| && g.subject < |in_.nodes|
    requires Resolves(in_.nodes, in_.edges, g.ends) && Adjacency(|in_.nodes|, g.ends, g.adj) && Grouped(in_.nodes, bands, layers)
    requires forall i :: 0 <= i < |in_.nodes| ==> g.bandOf[i] < |bands| && i in bands[g.bandOf[i]]
    requires forall b, k :: 0 <= b < |bands| && 0 <= k < |bands[b]| ==> g.bandOf[bands[b][k]] == b && pos[bands[b][k]] == k
    ensures g.Valid() && IsOrdering(g, bands) && pos == Slots(g, bands)
  {
    hide Slots, Neighbours;
    forall n | 0 <= n < |g.adj| ensures forall k :: 0 <= k < |g.adj[n]| ==> g.adj[n][k] < |g.bandOf| {
      NeighboursKnown(g.ends, n, |g.ends|, |g.bandOf|);
    }
    assert g.Valid();
    forall b | 0 <= b < |bands| ensures NoDup(bands[b]) {}
    SlotsInvert(g, bands, pos);
  }

  // ---- end to end

  function WidthOf(n: NodeIn): real { BoxWidth(Truncate(n.name, MAX_LABEL_RUNES), Truncate(n.kind, MAX_KIND_RUNES)) }

  /** The layout draws the accepted input: same graph, bands re-ordered only,
      boxes sized from what is written in them. */
  ghost predicate Draws(in_: Input, s: Start, l: Layout) {
    && Represents(in_, s) && l.g == s.g && SameNodes(l.bands, s.bands)
    && |l.boxes| == |in_.nodes| && forall n :: 0 <= n < |in_.nodes| ==> l.boxes[n].w == WidthOf(in_.nodes[n])
  }

  method Build(in_: Input) returns (r: Result<(Layout, Crossings)>, ghost start: Start)
    ensures r.Ok? <==> Acceptable(in_)
    ensures r.Ok? ==>
      var (l, c) := r.value;
      && Placed(l) && Draws(in_, start, l)
      && AllCentred(l.g, l.bands)
      && c.before == Score(start.g, Candidate(start.g, start.bands, 0))
      && c.after == SlotCrossings(l.g, l.pos)
      && (forall k :: 0 <= k <= 12 ==> c.after <= Score(start.g, Candidate(start.g, start.bands, k)))
      && (exists k :: 0 <= k <= 12 && FirstBest(start.g, start.bands, k) && l.bands == Candidate(start.g, start.bands, k))
      && |l.bands| <= 3 && c.after + UncountedCount(l) == DrawnCount(l) + MergedCount(l)
      && (AllAdjacent(l.g) ==> MergedCount(l) == 0 && c.after + ClippedCount(l) == DrawnCount(l))
      && (AllAdjacent(l.g) && NoDropsBesideRails(l.g) ==> c.after == DrawnCount(l))
  {
    hide Placed, SlotCrossings, Candidate, AllCentred, DrawnCount, MergedCount, UncountedCount, ClippedCount, AllAdjacent, NoDropsBesideRails, IsOrdering, Slots, Acceptable, WidthOf;
    start := Start(Graph([], 0, [], [], -1), [], []);
    var st := NewState(in_);
    if st.Invalid? {
      return Invalid, start;
    }
    start := st.value;
    var state := new State(st.value.g, st.value.bands, st.value.pos);
    var c := state.Order();
    StillNonEmpty(in_, start, state.bands);
    var widths := seq(|in_.nodes|, n requires 0 <= n < |in_.nodes| => WidthOf(in_.nodes[n]));
    forall n | 0 <= n < |widths| ensures widths[n] >= MIN_NODE_WIDTH { WidthAtLeast(in_.nodes[n]); }
    var l := Place(state.g, state.bands, state.pos, widths);
    PlacedPos(l);
    ObjectiveAgainstCensus(l);
    if AllAdjacent(l.g) { AdjacentCensus(l); }
    AtMostThree(in_, start);
    r := Ok((l, c));
  }

  /** There is a band for each layer at most. */
  lemma AtMostThree(in_: Input, s: Start)
    requires Represents(in_, s) && Acceptable(in_)
    ensures |s.bands| <= 3
  {
    hide Slots, IsOrdering, Resolves, Adjacency;
    var layers :| Grouped(in_.nodes, s.bands, layers);
    forall b | 0 <= b < |layers| ensures 1 <= layers[b] <= 3 { assert ValidNode(in_.nodes[s.bands[b][0]]); }
    if layers != [] { Descends(layers, |layers| - 1); }
  }

  lemma {:induction false} Descends(layers: seq<int>, b: nat)
    requires b < |layers| && forall c, d :: 0 <= c < d < |layers| ==> layers[c] > layers[d]
    ensures layers[b] <= layers[0] - b
  {
    if b > 0 { Descends(layers, b - 1); }
  }

  lemma WidthAtLeast(n: NodeIn)
    ensures WidthOf(n) >= MIN_NODE_WIDTH
  {
  }

  lemma PlacedPos(l: Layout)
    requires Placed(l)
    ensures Ordered(l) && |l.boxes| == |l.g.bandOf| && |l.lines| == |l.g.ends|
  {
    hide Slots, IsOrdering, EdgePlaced, RowSpaced, DepthsFor, LanesFit;
  }

  lemma StillNonEmpty(in_: Input, s: Start, bands: seq<seq<nat>>)
    requires Represents(in_, s) && SameNodes(bands, s.bands)
    ensures forall b :: 0 <= b < |bands| ==> bands[b] != []
  {
    hide Slots, IsOrdering, Resolves, Adjacency;
    var layers :| Grouped(in_.nodes, s.bands, layers);
    forall b | 0 <= b < |bands| ensures bands[b] != [] {
      assert s.bands[b][0] in multiset(bands[b]);
    }
  }
}
