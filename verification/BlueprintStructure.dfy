/** Stage one of `blueprint.rs`. */
module BlueprintStructure {
  import opened Wrappers
  import opened BlueprintGraph
  import opened GuardCode
  import opened Text

  /* A blueprint is accepted exactly when it keeps every structural rule, and then comes with the graph
  the later stages walk. */

  const MAX_NODES := 100
  const MAX_DEPTH := 20

  datatype Node = Node(id: Id, nodeType: string, params: map<string, Json>)
  datatype Wire = Wire(from: Id, to: Id, when: bool)
  datatype Blueprint = Blueprint(version: nat, name: string, nodes: seq<Node>, edges: seq<Wire>)

  datatype Kind = Source | Condition | Action | Gate

  /** Node classes, and edge lists in authoring order. */
  datatype Graph = Graph(kinds: map<Id, Kind>, incoming: Outgoing, outgoing: Outgoing)

  function KindOf(nodeType: string): Option<Kind> {
    if nodeType == "data_source" || nodeType == "constant" then Some(Source)
    else if nodeType == "condition" then Some(Condition)
    else if nodeType == "action_buy" || nodeType == "action_sell" || nodeType == "action_hold" then Some(Action)
    else if nodeType == "logic_and" || nodeType == "logic_or" then Some(Gate)
    else None
  }

  // ---------- text rules ----------

  predicate Forbidden(s: string) {
    Contains(s, "os.") || Contains(s, "io.") || Contains(s, "debug")
  }

  // ---------- the graph of a blueprint ----------

  function Ids(nodes: seq<Node>): seq<Id> {
    seq(|nodes|, i requires 0 <= i < |nodes| => nodes[i].id)
  }

  function From(edges: seq<Wire>, u: Id): seq<(Id, bool)> {
    if edges == [] then [] else
      var last := edges[|edges| - 1];
      From(edges[..|edges| - 1], u) + if last.from == u then [(last.to, last.when)] else []
  }

  function Into(edges: seq<Wire>, v: Id): seq<(Id, bool)> {
    if edges == [] then [] else
      var last := edges[|edges| - 1];
      Into(edges[..|edges| - 1], v) + if last.to == v then [(last.from, last.when)] else []
  }

  ghost predicate IndexedOut(m: Outgoing, edges: seq<Wire>) {
    forall u {:trigger From(edges, u)} {:trigger u in m} :: (u in m <==> From(edges, u) != []) && (u in m ==> m[u] == From(edges, u))
  }

  ghost predicate IndexedIn(m: Outgoing, edges: seq<Wire>) {
    forall u {:trigger Into(edges, u)} {:trigger u in m} :: (u in m <==> Into(edges, u) != []) && (u in m ==> m[u] == Into(edges, u))
  }

  ghost predicate KindsOf(nodes: seq<Node>, kinds: map<Id, Kind>) {
    && (forall id :: id in kinds <==> id in Ids(nodes))
    && forall i :: 0 <= i < |nodes| ==> nodes[i].id in kinds && KindOf(nodes[i].nodeType) == Some(kinds[nodes[i].id])
  }

  ghost predicate GraphOf(bp: Blueprint, g: Graph) {
    KindsOf(bp.nodes, g.kinds) && IndexedOut(g.outgoing, bp.edges) && IndexedIn(g.incoming, bp.edges)
  }

  lemma {:induction false} FromWitness(edges: seq<Wire>, u: Id, k: nat) returns (i: nat)
    requires k < |From(edges, u)|
    ensures i < |edges| && edges[i].from == u && (edges[i].to, edges[i].when) == From(edges, u)[k]
    decreases |edges|
  {
    var init := edges[..|edges| - 1];
    if k < |From(init, u)| {
      i := FromWitness(init, u, k);
    } else {
      i := |edges| - 1;
    }
  }

  lemma {:induction false} IntoWitness(edges: seq<Wire>, v: Id, k: nat) returns (i: nat)
    requires k < |Into(edges, v)|
    ensures i < |edges| && edges[i].to == v && (edges[i].from, edges[i].when) == Into(edges, v)[k]
    decreases |edges|
  {
    var init := edges[..|edges| - 1];
    if k < |Into(init, v)| {
      i := IntoWitness(init, v, k);
    } else {
      i := |edges| - 1;
    }
  }

  lemma {:induction false} FromHas(edges: seq<Wire>, i: nat) returns (k: nat)
    requires i < |edges|
    ensures k < |From(edges, edges[i].from)| && From(edges, edges[i].from)[k] == (edges[i].to, edges[i].when)
    decreases |edges|
  {
    var init := edges[..|edges| - 1];
    if i < |init| {
      k := FromHas(init, i);
    } else {
      k := |From(init, edges[i].from)|;
    }
  }

  /** Both indexes hold the same wires. */
  lemma IncomingIsEdge(bp: Blueprint, g: Graph, v: Id, k: nat)
    requires GraphOf(bp, g) && k < |Outs(g.incoming, v)|
    ensures Edge(g.outgoing, Outs(g.incoming, v)[k].0, v)
  {
    var i := IntoWitness(bp.edges, v, k);
    var j := FromHas(bp.edges, i);
    assert Outs(g.outgoing, bp.edges[i].from)[j].0 == v;
  }

  /** A blueprint has one graph. */
  lemma GraphUnique(bp: Blueprint, g: Graph, h: Graph)
    requires GraphOf(bp, g) && GraphOf(bp, h)
    ensures g == h
  {
    assert g.outgoing.Keys == h.outgoing.Keys && g.incoming.Keys == h.incoming.Keys && g.kinds.Keys == h.kinds.Keys by {
      assert forall u :: u in g.outgoing <==> u in h.outgoing;
      assert forall u :: u in g.incoming <==> u in h.incoming;
      assert forall u :: u in g.kinds <==> u in h.kinds;
    }
    forall id | id in g.kinds ensures g.kinds[id] == h.kinds[id] {
      var i :| 0 <= i < |bp.nodes| && Ids(bp.nodes)[i] == id;
    }
    assert g.kinds == h.kinds;
    assert g.outgoing == h.outgoing;
    assert g.incoming == h.incoming;
  }

  // ---------- the rules ----------

  predicate HeaderOk(bp: Blueprint) {
    bp.version == 1 && !Blank(bp.name) && !Forbidden(bp.name) && 0 < |bp.nodes| <= MAX_NODES
  }

  ghost predicate NodesOk(nodes: seq<Node>) {
    && (forall i :: 0 <= i < |nodes| ==> !Blank(nodes[i].id) && KindOf(nodes[i].nodeType).Some?)
    && forall i, j :: 0 <= i < j < |nodes| ==> nodes[i].id != nodes[j].id
  }

  ghost predicate EdgesOk(nodes: seq<Node>, edges: seq<Wire>) {
    && (forall i :: 0 <= i < |edges| ==> edges[i].from in Ids(nodes) && edges[i].to in Ids(nodes) && edges[i].from != edges[i].to)
    && forall i, j :: 0 <= i < j < |edges| ==> (edges[i].from, edges[i].to) != (edges[j].from, edges[j].to)
  }

  predicate IsKind(g: Graph, id: Id, kind: Kind) {
    id in g.kinds && g.kinds[id] == kind
  }

  /** Conditions and gates produce guards. */
  predicate ProducesGuard(g: Graph, id: Id) {
    IsKind(g, id, Condition) || IsKind(g, id, Gate)
  }

  predicate AllGuards(g: Graph, ins: seq<(Id, bool)>) {
    forall k :: 0 <= k < |ins| ==> ProducesGuard(g, ins[k].0)
  }

  function Operands(g: Graph, ins: seq<(Id, bool)>): seq<Id> {
    if ins == [] then [] else (if IsKind(g, ins[0].0, Source) then [ins[0].0] else []) + Operands(g, ins[1..])
  }

  /** Something else touches the node. */
  predicate Connected(g: Graph, n: Node) {
    n.id in g.incoming || n.id in g.outgoing
  }

  predicate ActionOk(g: Graph, n: Node) {
    IsKind(g, n.id, Action) ==> n.id !in g.outgoing && n.id in g.incoming && AllGuards(g, g.incoming[n.id])
  }

  /** One left side: a `field`, or one operand edge; a guard edge alone is let through here. */
  predicate ConditionShapeOk(g: Graph, n: Node) {
    IsKind(g, n.id, Condition) ==>
      var operands := Operands(g, Outs(g.incoming, n.id));
      if "field" in n.params then operands == []
      else |operands| <= 1 && (|operands| == 1 || Outs(g.incoming, n.id) != [])
  }

  predicate GateOk(g: Graph, n: Node) {
    IsKind(g, n.id, Gate) ==> |Outs(g.incoming, n.id)| >= 2 && AllGuards(g, Outs(g.incoming, n.id))
  }

  predicate WiredAction(g: Graph, n: Node) {
    IsKind(g, n.id, Action) && n.id in g.incoming
  }

  ghost predicate OneWiredAction(g: Graph, nodes: seq<Node>) {
    exists i :: 0 <= i < |nodes| && WiredAction(g, nodes[i]) && forall j :: 0 <= j < |nodes| && WiredAction(g, nodes[j]) ==> j == i
  }

  ghost predicate ShortPaths(nodes: seq<Node>, out: Outgoing) {
    forall p :: Path(out, p) && p[0] in Ids(nodes) ==> |p| <= MAX_DEPTH
  }

  ghost predicate WiringOk(bp: Blueprint, g: Graph) {
    && (|bp.nodes| > 1 ==> forall i :: 0 <= i < |bp.nodes| ==> Connected(g, bp.nodes[i]))
    && (forall i :: 0 <= i < |bp.nodes| ==> ActionOk(g, bp.nodes[i]))
    && OneWiredAction(g, bp.nodes)
    && (forall i :: 0 <= i < |bp.nodes| ==> ConditionShapeOk(g, bp.nodes[i]))
    && (forall i :: 0 <= i < |bp.nodes| ==> GateOk(g, bp.nodes[i]))
    && Acyclic(g.outgoing)
    && ShortPaths(bp.nodes, g.outgoing)
  }

  /** `g` is the graph of `bp`, and `bp` keeps every structural rule. */
  ghost predicate StructureOk(bp: Blueprint, g: Graph) {
    HeaderOk(bp) && NodesOk(bp.nodes) && EdgesOk(bp.nodes, bp.edges) && GraphOf(bp, g) && WiringOk(bp, g)
  }

  // ---------- the checks ----------

  datatype Fault =
    | BadHeader | BadNode(id: Id) | BadEdge(from: Id, to: Id) | Orphan(id: Id) | BadAction(id: Id) | NotOneAction(n: nat)
    | BadCondition(id: Id) | BadGate(id: Id) | OnCycle | TooDeep

  method CheckNodes(nodes: seq<Node>) returns (r: Result<map<Id, Kind>, Fault>)
    ensures r.Ok? <==> NodesOk(nodes)
    ensures r.Ok? ==> KindsOf(nodes, r.value)
  {
    var kinds: map<Id, Kind> := map[];
    for i := 0 to |nodes|
      invariant NodesOk(nodes[..i]) && KindsOf(nodes[..i], kinds)
    {
      var n := nodes[i];
      if Blank(n.id) {
        return Err(BadNode(n.id));
      }
      if n.id in kinds {
        var j :| 0 <= j < i && Ids(nodes[..i])[j] == n.id;
        assert nodes[j].id == nodes[i].id;
        return Err(BadNode(n.id));
      }
      if KindOf(n.nodeType).None? {
        return Err(BadNode(n.id));
      }
      NodeAdded(nodes, i, kinds);
      kinds := kinds[n.id := KindOf(n.nodeType).value];
    }
    assert nodes[..|nodes|] == nodes;
    return Ok(kinds);
  }

  lemma NodeAdded(nodes: seq<Node>, i: nat, kinds: map<Id, Kind>)
    requires i < |nodes| && NodesOk(nodes[..i]) && KindsOf(nodes[..i], kinds)
    requires !Blank(nodes[i].id) && nodes[i].id !in kinds && KindOf(nodes[i].nodeType).Some?
    ensures NodesOk(nodes[..i + 1])
    ensures KindsOf(nodes[..i + 1], kinds[nodes[i].id := KindOf(nodes[i].nodeType).value])
  {
    IdIsNew(nodes[..i], kinds, nodes[i].id);
    KindAdded(nodes[..i], nodes[i], kinds);
    assert nodes[..i] + [nodes[i]] == nodes[..i + 1];
  }

  lemma IdIsNew(nodes: seq<Node>, kinds: map<Id, Kind>, id: Id)
    requires KindsOf(nodes, kinds) && id !in kinds
    ensures forall j :: 0 <= j < |nodes| ==> nodes[j].id != id
  {
  }

  lemma KindAdded(nodes: seq<Node>, n: Node, kinds: map<Id, Kind>)
    requires KindsOf(nodes, kinds) && n.id !in kinds && KindOf(n.nodeType).Some?
    ensures KindsOf(nodes + [n], kinds[n.id := KindOf(n.nodeType).value])
  {
    var all, more := nodes + [n], kinds[n.id := KindOf(n.nodeType).value];
    assert Ids(all) == Ids(nodes) + [n.id];
    IdIsNew(nodes, kinds, n.id);
    forall i | 0 <= i < |all| ensures all[i].id in more && KindOf(all[i].nodeType) == Some(more[all[i].id]) {
      assert i < |nodes| ==> all[i] == nodes[i];
    }
  }

  /** The pairs already joined. */
  ghost predicate Seen(seen: set<(Id, Id)>, edges: seq<Wire>) {
    && (forall j :: 0 <= j < |edges| ==> (edges[j].from, edges[j].to) in seen)
    && forall pair :: pair in seen ==> exists j :: 0 <= j < |edges| && (edges[j].from, edges[j].to) == pair
  }

  function Put(m: Outgoing, at: Id, entry: (Id, bool)): Outgoing {
    m[at := Outs(m, at) + [entry]]
  }

  lemma WireIndexedOut(edges: seq<Wire>, e: Wire, outgoing: Outgoing)
    requires IndexedOut(outgoing, edges)
    ensures IndexedOut(Put(outgoing, e.from, (e.to, e.when)), edges + [e])
  {
    var put := Put(outgoing, e.from, (e.to, e.when));
    assert (edges + [e])[..|edges|] == edges;
    forall u ensures (u in put <==> From(edges + [e], u) != []) && (u in put ==> put[u] == From(edges + [e], u)) {
      assert From(edges + [e], u) == From(edges, u) + if e.from == u then [(e.to, e.when)] else [];
      assert u in outgoing <==> From(edges, u) != [];
    }
  }

  lemma WireIndexedIn(edges: seq<Wire>, e: Wire, incoming: Outgoing)
    requires IndexedIn(incoming, edges)
    ensures IndexedIn(Put(incoming, e.to, (e.from, e.when)), edges + [e])
  {
    var put := Put(incoming, e.to, (e.from, e.when));
    assert (edges + [e])[..|edges|] == edges;
    forall u ensures (u in put <==> Into(edges + [e], u) != []) && (u in put ==> put[u] == Into(edges + [e], u)) {
      assert Into(edges + [e], u) == Into(edges, u) + if e.to == u then [(e.from, e.when)] else [];
      assert u in incoming <==> Into(edges, u) != [];
    }
  }

  lemma SeenMore(edges: seq<Wire>, e: Wire, seen: set<(Id, Id)>)
    requires Seen(seen, edges)
    ensures Seen(seen + {(e.from, e.to)}, edges + [e])
  {
    var after := edges + [e];
    forall pair | pair in seen + {(e.from, e.to)} ensures exists j :: 0 <= j < |after| && (after[j].from, after[j].to) == pair {
      if pair in seen {
        var j :| 0 <= j < |edges| && (edges[j].from, edges[j].to) == pair;
        assert after[j] == edges[j];
      } else {
        assert after[|edges|] == e;
      }
    }
  }

  lemma EdgesMore(nodes: seq<Node>, edges: seq<Wire>, e: Wire)
    requires EdgesOk(nodes, edges)
    ensures EdgesOk(nodes, edges + [e]) <==>
            && e.from in Ids(nodes) && e.to in Ids(nodes) && e.from != e.to
            && forall j :: 0 <= j < |edges| ==> (edges[j].from, edges[j].to) != (e.from, e.to)
  {
    hide Ids;
    var after := edges + [e];
    assert after[|edges|] == e && forall j :: 0 <= j < |edges| ==> after[j] == edges[j];
  }

  lemma WireAllowed(nodes: seq<Node>, edges: seq<Wire>, i: nat, seen: set<(Id, Id)>)
    requires i < |edges| && EdgesOk(nodes, edges[..i]) && Seen(seen, edges[..i])
    ensures var e := edges[i];
            (e.from in Ids(nodes) && e.to in Ids(nodes) && e.from != e.to && (e.from, e.to) !in seen) <==> EdgesOk(nodes, edges[..i + 1])
    ensures Seen(seen + {(edges[i].from, edges[i].to)}, edges[..i + 1])
  {
    hide EdgesOk, Ids;
    var e, before := edges[i], edges[..i];
    assert edges[..i + 1] == before + [e];
    SeenMore(before, e, seen);
    EdgesMore(nodes, before, e);
    assert (e.from, e.to) in seen <==> exists j :: 0 <= j < |before| && (before[j].from, before[j].to) == (e.from, e.to);
  }

  ghost predicate Indexed(nodes: seq<Node>, edges: seq<Wire>, seen: set<(Id, Id)>, incoming: Outgoing, outgoing: Outgoing) {
    EdgesOk(nodes, edges) && Seen(seen, edges) && IndexedIn(incoming, edges) && IndexedOut(outgoing, edges)
  }

  lemma WireRefused(nodes: seq<Node>, edges: seq<Wire>, i: nat)
    requires i < |edges| && !EdgesOk(nodes, edges[..i + 1])
    ensures !EdgesOk(nodes, edges)
  {
  }

  method IndexWire(nodes: seq<Node>, edges: seq<Wire>, i: nat, kinds: map<Id, Kind>,
                   seen0: set<(Id, Id)>, in0: Outgoing, out0: Outgoing)
    returns (ok: bool, seen: set<(Id, Id)>, incoming: Outgoing, outgoing: Outgoing)
    requires KindsOf(nodes, kinds) && i < |edges| && Indexed(nodes, edges[..i], seen0, in0, out0)
    ensures !ok ==> !EdgesOk(nodes, edges)
    ensures ok ==> Indexed(nodes, edges[..i + 1], seen, incoming, outgoing)
  {
    hide EdgesOk, Seen, IndexedIn, IndexedOut;
    var e := edges[i];
    WireAllowed(nodes, edges, i, seen0);
    if e.from !in kinds || e.to !in kinds || e.from == e.to || (e.from, e.to) in seen0 {
      WireRefused(nodes, edges, i);
      return false, seen0, in0, out0;
    }
    WireIndexedIn(edges[..i], e, in0);
    WireIndexedOut(edges[..i], e, out0);
    assert edges[..i] + [e] == edges[..i + 1];
    return true, seen0 + {(e.from, e.to)}, Put(in0, e.to, (e.from, e.when)), Put(out0, e.from, (e.to, e.when));
  }

  method IndexEdges(nodes: seq<Node>, edges: seq<Wire>, kinds: map<Id, Kind>) returns (r: Result<(Outgoing, Outgoing), Fault>)
    requires KindsOf(nodes, kinds)
    ensures r.Ok? <==> EdgesOk(nodes, edges)
    ensures r.Ok? ==> IndexedIn(r.value.0, edges) && IndexedOut(r.value.1, edges)
  {
    var incoming: Outgoing, outgoing: Outgoing := map[], map[];
    var seen: set<(Id, Id)> := {};
    for i := 0 to |edges|
      invariant Indexed(nodes, edges[..i], seen, incoming, outgoing)
    {
      var ok;
      ok, seen, incoming, outgoing := IndexWire(nodes, edges, i, kinds, seen, incoming, outgoing);
      if !ok {
        return Err(BadEdge(edges[i].from, edges[i].to));
      }
    }
    assert edges[..|edges|] == edges;
    return Ok((incoming, outgoing));
  }

  method CheckOrphans(nodes: seq<Node>, g: Graph) returns (bad: Option<Fault>)
    ensures bad.None? <==> (|nodes| > 1 ==> forall i :: 0 <= i < |nodes| ==> Connected(g, nodes[i]))
  {
    if |nodes| > 1 {
      for i := 0 to |nodes|
        invariant forall j :: 0 <= j < i ==> Connected(g, nodes[j])
      {
        if nodes[i].id !in g.incoming && nodes[i].id !in g.outgoing {
          return Some(Orphan(nodes[i].id));
        }
      }
    }
    return None;
  }

  /** The first input that is no guard producer, if there is one. */
  method FindRaw(g: Graph, ins: seq<(Id, bool)>) returns (raw: Option<Id>)
    ensures raw.None? <==> AllGuards(g, ins)
  {
    for k := 0 to |ins|
      invariant forall j :: 0 <= j < k ==> ProducesGuard(g, ins[j].0)
    {
      var src := ins[k].0;
      if !(src in g.kinds && (g.kinds[src] == Condition || g.kinds[src] == Gate)) {
        return Some(src);
      }
    }
    return None;
  }

  /** One action: terminal, wired, and guarded by every edge into it. */
  method CheckAction(g: Graph, n: Node) returns (ok: bool)
    requires IsKind(g, n.id, Action)
    ensures ok <==> ActionOk(g, n)
  {
    if n.id in g.outgoing || n.id !in g.incoming {
      return false;
    }
    var raw := FindRaw(g, g.incoming[n.id]);
    return raw.None?;
  }

  method CheckActions(nodes: seq<Node>, g: Graph) returns (bad: Option<Fault>)
    ensures bad.None? <==> forall i :: 0 <= i < |nodes| ==> ActionOk(g, nodes[i])
  {
    for i := 0 to |nodes|
      invariant forall j :: 0 <= j < i ==> ActionOk(g, nodes[j])
    {
      if IsKind(g, nodes[i].id, Action) {
        var ok := CheckAction(g, nodes[i]);
        if !ok {
          return Some(BadAction(nodes[i].id));
        }
      }
    }
    return None;
  }

  /** The positions of the wired actions, in order. */
  ghost predicate WiredAt(g: Graph, nodes: seq<Node>, wired: seq<nat>, upTo: nat) {
    && (forall k :: 0 <= k < |wired| ==> wired[k] < upTo <= |nodes| && WiredAction(g, nodes[wired[k]]))
    && (forall k :: 0 <= k < |wired| - 1 ==> wired[k] < wired[k + 1])
    && forall j :: 0 <= j < upTo <= |nodes| && WiredAction(g, nodes[j]) ==> j in wired
  }

  method WiredActions(nodes: seq<Node>, g: Graph) returns (wired: seq<nat>)
    ensures WiredAt(g, nodes, wired, |nodes|)
  {
    wired := [];
    for i := 0 to |nodes|
      invariant WiredAt(g, nodes, wired, i)
    {
      if WiredAction(g, nodes[i]) {
        ghost var before := wired;
        wired := wired + [i];
        assert wired[|before|] == i && forall j :: j in before ==> j in wired;
      }
    }
  }

  lemma OneWired(g: Graph, nodes: seq<Node>, wired: seq<nat>)
    requires WiredAt(g, nodes, wired, |nodes|)
    ensures |wired| == 1 <==> OneWiredAction(g, nodes)
  {
    if |wired| == 1 {
      assert WiredAction(g, nodes[wired[0]]);
    } else if |wired| > 1 {
      assert wired[0] < wired[1] && WiredAction(g, nodes[wired[0]]) && WiredAction(g, nodes[wired[1]]);
    } else {
      assert forall j :: 0 <= j < |nodes| ==> j !in wired;
    }
  }

  method CheckOneAction(nodes: seq<Node>, g: Graph) returns (bad: Option<Fault>)
    ensures bad.None? <==> OneWiredAction(g, nodes)
  {
    var wired := WiredActions(nodes, g);
    OneWired(g, nodes, wired);
    return if |wired| == 1 then None else Some(NotOneAction(|wired|));
  }

  lemma {:induction false} OperandsMore(g: Graph, ins: seq<(Id, bool)>, e: (Id, bool))
    ensures Operands(g, ins + [e]) == Operands(g, ins) + if IsKind(g, e.0, Source) then [e.0] else []
    decreases |ins|
  {
    if ins == [] {
      assert ins + [e] == [e];
      assert Operands(g, [e][1..]) == [];
    } else {
      OperandsMore(g, ins[1..], e);
      assert (ins + [e])[1..] == ins[1..] + [e];
    }
  }

  /** The value producers among the inputs, in drawing order, and whether anything else is there. */
  method SplitInputs(g: Graph, ins: seq<(Id, bool)>) returns (operands: seq<Id>, guarded: bool)
    ensures operands == Operands(g, ins)
    ensures guarded <==> |operands| < |ins|
  {
    operands, guarded := [], false;
    for k := 0 to |ins|
      invariant operands == Operands(g, ins[..k]) && |operands| <= k && (guarded <==> |operands| < k)
    {
      OperandsMore(g, ins[..k], ins[k]);
      assert ins[..k] + [ins[k]] == ins[..k + 1];
      if IsKind(g, ins[k].0, Source) {
        operands := operands + [ins[k].0];
      } else {
        guarded := true;
      }
    }
    assert ins[..|ins|] == ins;
  }

  /** One left side: a field takes no operand; without a field two are too many, and none is let
  through behind a guard only. */
  method CheckCondition(g: Graph, n: Node) returns (ok: bool)
    requires IsKind(g, n.id, Condition)
    ensures ok <==> ConditionShapeOk(g, n)
  {
    var operands, guarded := SplitInputs(g, Outs(g.incoming, n.id));
    if "field" in n.params && operands != [] {
      return false;
    }
    if "field" !in n.params && |operands| > 1 {
      return false;
    }
    if "field" !in n.params && operands == [] && !guarded {
      return false;
    }
    return true;
  }

  method CheckConditions(nodes: seq<Node>, g: Graph) returns (bad: Option<Fault>)
    ensures bad.None? <==> forall i :: 0 <= i < |nodes| ==> ConditionShapeOk(g, nodes[i])
  {
    for i := 0 to |nodes|
      invariant forall j :: 0 <= j < i ==> ConditionShapeOk(g, nodes[j])
    {
      if IsKind(g, nodes[i].id, Condition) {
        var ok := CheckCondition(g, nodes[i]);
        if !ok {
          return Some(BadCondition(nodes[i].id));
        }
      }
    }
    return None;
  }

  /** At least two inputs, all of them guards. */
  method CheckGate(g: Graph, n: Node) returns (ok: bool)
    requires IsKind(g, n.id, Gate)
    ensures ok <==> GateOk(g, n)
  {
    if n.id !in g.incoming || |g.incoming[n.id]| < 2 {
      return false;
    }
    var raw := FindRaw(g, g.incoming[n.id]);
    return raw.None?;
  }

  method CheckGates(nodes: seq<Node>, g: Graph) returns (bad: Option<Fault>)
    ensures bad.None? <==> forall i :: 0 <= i < |nodes| ==> GateOk(g, nodes[i])
  {
    for i := 0 to |nodes|
      invariant forall j :: 0 <= j < i ==> GateOk(g, nodes[j])
    {
      if IsKind(g, nodes[i].id, Gate) {
        var ok := CheckGate(g, nodes[i]);
        if !ok {
          return Some(BadGate(nodes[i].id));
        }
      }
    }
    return None;
  }

  lemma GraphClosed(bp: Blueprint, g: Graph)
    requires EdgesOk(bp.nodes, bp.edges) && GraphOf(bp, g)
    ensures Closed(Ids(bp.nodes), g.outgoing)
  {
    forall u, k | u in g.outgoing && 0 <= k < |g.outgoing[u]|
      ensures u in Ids(bp.nodes) && g.outgoing[u][k].0 in Ids(bp.nodes)
    {
      var i := FromWitness(bp.edges, u, k);
    }
    forall u | u in g.outgoing ensures u in Ids(bp.nodes) {
      assert |g.outgoing[u]| > 0;
      var i := FromWitness(bp.edges, u, 0);
    }
  }

  /** The bottom-up depths against the ceiling. */
  method CheckDepth(nodes: seq<Node>, out: Outgoing, depth: map<Id, nat>) returns (deep: bool)
    requires depth.Keys == (set n | n in Ids(nodes)) && forall n :: n in depth ==> Longest(out, n, depth[n])
    ensures deep <==> !ShortPaths(nodes, out)
  {
    hide ShortPaths, Longest;
    for i := 0 to |nodes|
      invariant forall j :: 0 <= j < i ==> nodes[j].id in depth && depth[nodes[j].id] <= MAX_DEPTH
    {
      assert Ids(nodes)[i] == nodes[i].id;
      if depth[nodes[i].id] > MAX_DEPTH {
        TooLong(nodes, out, nodes[i].id, depth[nodes[i].id]);
        return true;
      }
    }
    AllShort(nodes, out, depth);
    return false;
  }

  lemma TooLong(nodes: seq<Node>, out: Outgoing, id: Id, d: nat)
    requires id in Ids(nodes) && Longest(out, id, d) && d > MAX_DEPTH
    ensures !ShortPaths(nodes, out)
  {
    var p :| Path(out, p) && p[0] == id && |p| == d;
  }

  lemma AllShort(nodes: seq<Node>, out: Outgoing, depth: map<Id, nat>)
    requires forall n :: n in depth ==> Longest(out, n, depth[n])
    requires forall i :: 0 <= i < |nodes| ==> nodes[i].id in depth && depth[nodes[i].id] <= MAX_DEPTH
    ensures ShortPaths(nodes, out)
  {
    forall p | Path(out, p) && p[0] in Ids(nodes) ensures |p| <= MAX_DEPTH {
      var i :| 0 <= i < |nodes| && Ids(nodes)[i] == p[0];
      assert Longest(out, nodes[i].id, depth[nodes[i].id]);
    }
  }

  /** Stage one's search for cycles and its depth ceiling. */
  method CheckShape(nodes: seq<Node>, out: Outgoing) returns (bad: Option<Fault>)
    requires Distinct(Ids(nodes)) && Closed(Ids(nodes), out)
    ensures bad.None? <==> Acyclic(out) && ShortPaths(nodes, out)
  {
    var cycle := DetectCycle(Ids(nodes), out);
    if cycle.Err? {
      return Some(OnCycle);
    }
    var order := TopoOrder(Ids(nodes), out);
    var depth := Depths(Ids(nodes), out, order.value);
    var deep := CheckDepth(nodes, out, depth);
    return if deep then Some(TooDeep) else None;
  }

  method CheckWiring(bp: Blueprint, g: Graph) returns (bad: Option<Fault>)
    requires NodesOk(bp.nodes) && EdgesOk(bp.nodes, bp.edges) && GraphOf(bp, g)
    ensures bad.None? <==> WiringOk(bp, g)
  {
    bad := CheckOrphans(bp.nodes, g);
    if bad.Some? { return; }
    bad := CheckActions(bp.nodes, g);
    if bad.Some? { return; }
    bad := CheckOneAction(bp.nodes, g);
    if bad.Some? { return; }
    bad := CheckConditions(bp.nodes, g);
    if bad.Some? { return; }
    bad := CheckGates(bp.nodes, g);
    if bad.Some? { return; }
    GraphClosed(bp, g);
    bad := CheckShape(bp.nodes, g.outgoing);
  }

  /** Accepts exactly the blueprints that keep every structural rule, and returns their graph. */
  method ValidateStructure(bp: Blueprint) returns (r: Result<Graph, Fault>)
    ensures r.Ok? ==> StructureOk(bp, r.value)
    ensures r.Err? ==> forall g :: !StructureOk(bp, g)
  {
    if !HeaderOk(bp) {
      return Err(BadHeader);
    }
    var kinds := CheckNodes(bp.nodes);
    if kinds.Err? {
      return Err(kinds.error);
    }
    var index := IndexEdges(bp.nodes, bp.edges, kinds.value);
    if index.Err? {
      return Err(index.error);
    }
    var g := Graph(kinds.value, index.value.0, index.value.1);
    var bad := CheckWiring(bp, g);
    if bad.Some? {
      forall h ensures !StructureOk(bp, h) {
        if GraphOf(bp, h) {
          GraphUnique(bp, g, h);
        }
      }
      return Err(bad.value);
    }
    return Ok(g);
  }
}
