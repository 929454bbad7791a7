/** Blueprints that pass the first two stages of `blueprint.rs`, and what the third makes of them: one
that does not load, one that is refused, and three whose orders do not do what the drawing says. */
module BlueprintExamples {
  import opened Wrappers
  import opened BlueprintGraph
  import opened BlueprintStructure
  import opened BlueprintCodegen
  import opened BlueprintKnobs
  import opened BlueprintScan
  import opened GuardCode
  import opened Lua
  import T = Text

  // ---------- the graph of a drawing ----------

  function KindAt(nodes: seq<Node>, id: Id): Kind
    requires NodesOk(nodes) && id in Ids(nodes)
  {
    var n := Find(nodes, id).value;
    KindOf(n.nodeType).value
  }

  /** The graph the first stage builds. */
  function GraphFor(bp: Blueprint): Graph
    requires NodesOk(bp.nodes)
  {
    Graph(map id | id in Ids(bp.nodes) :: KindAt(bp.nodes, id),
          map v | v in (set w | w in bp.edges :: w.to) :: Into(bp.edges, v),
          map u | u in (set w | w in bp.edges :: w.from) :: From(bp.edges, u))
  }

  lemma {:induction false} IntoHas(edges: seq<Wire>, i: nat)
    requires i < |edges|
    ensures Into(edges, edges[i].to) != []
    decreases |edges|
  {
    var init := edges[..|edges| - 1];
    if i < |init| {
      IntoHas(init, i);
    }
  }

  lemma KeysFor(edges: seq<Wire>, id: Id)
    ensures From(edges, id) != [] <==> exists w :: w in edges && w.from == id
    ensures Into(edges, id) != [] <==> exists w :: w in edges && w.to == id
  {
    if From(edges, id) != [] {
      var i := FromWitness(edges, id, 0);
    }
    if Into(edges, id) != [] {
      var i := IntoWitness(edges, id, 0);
    }
    if w :| w in edges && w.from == id {
      var i :| 0 <= i < |edges| && edges[i] == w;
      var k := FromHas(edges, i);
    }
    if w :| w in edges && w.to == id {
      var i :| 0 <= i < |edges| && edges[i] == w;
      IntoHas(edges, i);
    }
  }

  lemma GraphForIndexes(bp: Blueprint)
    requires NodesOk(bp.nodes)
    ensures IndexedIn(GraphFor(bp).incoming, bp.edges) && IndexedOut(GraphFor(bp).outgoing, bp.edges)
    ensures forall v :: Outs(GraphFor(bp).incoming, v) == Into(bp.edges, v)
  {
    hide NodesOk;
    forall id ensures From(bp.edges, id) != [] <==> exists w :: w in bp.edges && w.from == id {
      KeysFor(bp.edges, id);
    }
    forall id ensures Into(bp.edges, id) != [] <==> exists w :: w in bp.edges && w.to == id {
      KeysFor(bp.edges, id);
    }
  }

  lemma GraphForKinds(bp: Blueprint)
    requires NodesOk(bp.nodes)
    ensures KindsOf(bp.nodes, GraphFor(bp).kinds)
  {
    forall i | 0 <= i < |bp.nodes|
      ensures bp.nodes[i].id in GraphFor(bp).kinds && KindOf(bp.nodes[i].nodeType) == Some(GraphFor(bp).kinds[bp.nodes[i].id])
    {
      FindNode(bp, bp.nodes[i]);
    }
  }

  lemma GraphForIsIt(bp: Blueprint)
    requires NodesOk(bp.nodes)
    ensures GraphOf(bp, GraphFor(bp))
  {
    hide NodesOk, KindsOf, IndexedIn, IndexedOut;
    GraphForIndexes(bp);
    GraphForKinds(bp);
  }

  predicate LeavesFrom(edges: seq<Wire>, id: Id) {
    exists i :: 0 <= i < |edges| && edges[i].from == id
  }

  /** A node in the graph of its drawing. */
  predicate Seen(bp: Blueprint, g: Graph, n: Node) {
    && Find(bp.nodes, n.id) == Some(n) && n.id in g.kinds && KindOf(n.nodeType) == Some(g.kinds[n.id])
    && Outs(g.incoming, n.id) == Into(bp.edges, n.id)
    && (n.id in g.incoming <==> Into(bp.edges, n.id) != [])
    && (n.id in g.outgoing <==> LeavesFrom(bp.edges, n.id))
  }

  lemma NodeListed(bp: Blueprint, n: Node)
    requires NodesOk(bp.nodes) && n in bp.nodes
    ensures var g := GraphFor(bp);
            Find(bp.nodes, n.id) == Some(n) && n.id in g.kinds && KindOf(n.nodeType) == Some(g.kinds[n.id])
  {
    FindNode(bp, n);
  }

  lemma KeysSeen(bp: Blueprint, id: Id)
    requires NodesOk(bp.nodes)
    ensures var g := GraphFor(bp);
            && (id in g.incoming <==> Into(bp.edges, id) != []) && (id in g.outgoing <==> LeavesFrom(bp.edges, id))
  {
    hide NodesOk, From, Into;
    KeysFor(bp.edges, id);
    if w :| w in bp.edges && w.from == id {
      var i :| 0 <= i < |bp.edges| && bp.edges[i] == w;
    }
  }

  lemma NodeSeen(bp: Blueprint, n: Node)
    requires NodesOk(bp.nodes) && n in bp.nodes
    ensures Seen(bp, GraphFor(bp), n)
  {
    NodeListed(bp, n);
    hide NodesOk, GraphFor, From, Into, IndexedIn, IndexedOut;
    GraphForIndexes(bp);
    KeysSeen(bp, n.id);
  }

  // ---------- drawings in order ----------

  /** Every edge goes from a node to one listed after it. */
  ghost predicate Downhill(bp: Blueprint) {
    forall i :: 0 <= i < |bp.edges| ==> Descends(bp, bp.edges[i])
  }

  ghost predicate Descends(bp: Blueprint, w: Wire) {
    exists a, b :: 0 <= a < b < |bp.nodes| && bp.nodes[a].id == w.from && bp.nodes[b].id == w.to
  }

  lemma WireOf(bp: Blueprint, u: Id, v: Id) returns (i: nat)
    requires NodesOk(bp.nodes) && Edge(GraphFor(bp).outgoing, u, v)
    ensures i < |bp.edges| && bp.edges[i].from == u && bp.edges[i].to == v
  {
    var out := GraphFor(bp).outgoing;
    var k :| 0 <= k < |Outs(out, u)| && Outs(out, u)[k].0 == v;
    i := FromWitness(bp.edges, u, k);
  }

  lemma DownhillWire(bp: Blueprint, i: nat, j: nat)
    requires NodesOk(bp.nodes) && Downhill(bp) && i < |bp.edges| && j < |bp.nodes| && bp.edges[i].to == bp.nodes[j].id
    ensures exists a :: 0 <= a < j && bp.nodes[a].id == bp.edges[i].from
  {
    assert Descends(bp, bp.edges[i]);
    hide NodesOk, Downhill;
    var a, b :| 0 <= a < b < |bp.nodes| && bp.nodes[a].id == bp.edges[i].from && bp.nodes[b].id == bp.nodes[j].id;
    OnePlace(bp.nodes, b, j);
  }

  lemma DownhillEdge(bp: Blueprint, u: Id, j: nat)
    requires NodesOk(bp.nodes) && Downhill(bp) && j < |bp.nodes| && Edge(GraphFor(bp).outgoing, u, Ids(bp.nodes)[j])
    ensures u in Ids(bp.nodes)[..j]
  {
    hide NodesOk, Downhill, Edge, GraphFor;
    var ids := Ids(bp.nodes);
    var i := WireOf(bp, u, ids[j]);
    DownhillWire(bp, i, j);
    var a :| 0 <= a < j && bp.nodes[a].id == u;
    assert ids[..j][a] == u;
  }

  lemma OnePlace(nodes: seq<Node>, i: nat, j: nat)
    requires NodesOk(nodes) && i < |nodes| && j < |nodes| && nodes[i].id == nodes[j].id
    ensures i == j
  {
  }

  lemma DownhillClosed(bp: Blueprint)
    requires NodesOk(bp.nodes) && Downhill(bp)
    ensures Closed(Ids(bp.nodes), GraphFor(bp).outgoing)
  {
    var g, ids := GraphFor(bp), Ids(bp.nodes);
    hide NodesOk, Downhill;
    forall u, k | u in g.outgoing && 0 <= k < |g.outgoing[u]| ensures g.outgoing[u][k].0 in ids {
      var i := FromWitness(bp.edges, u, k);
      InOrder(bp, i);
    }
    forall u | u in g.outgoing ensures u in ids {
      var w :| w in bp.edges && w.from == u;
      var i :| 0 <= i < |bp.edges| && bp.edges[i] == w;
      InOrder(bp, i);
    }
  }

  lemma DownhillForward(bp: Blueprint)
    requires NodesOk(bp.nodes) && Downhill(bp)
    ensures Forward(GraphFor(bp).outgoing, Ids(bp.nodes)) && Distinct(Ids(bp.nodes)) && Closed(Ids(bp.nodes), GraphFor(bp).outgoing)
  {
    DownhillClosed(bp);
    hide Downhill, GraphFor, Closed, Edge;
    var out, ids := GraphFor(bp).outgoing, Ids(bp.nodes);
    forall j, u | 0 <= j < |ids| && Edge(out, u, ids[j]) ensures u in ids[..j] {
      DownhillEdge(bp, u, j);
    }
  }

  lemma InOrder(bp: Blueprint, i: nat)
    requires Downhill(bp) && i < |bp.edges|
    ensures bp.edges[i].from in Ids(bp.nodes) && bp.edges[i].to in Ids(bp.nodes)
  {
    assert Descends(bp, bp.edges[i]);
    var a, b :| 0 <= a < b < |bp.nodes| && bp.nodes[a].id == bp.edges[i].from && bp.nodes[b].id == bp.edges[i].to;
    assert Ids(bp.nodes)[a] == bp.edges[i].from && Ids(bp.nodes)[b] == bp.edges[i].to;
  }

  /** A small drawing in order has no cycle and no deep path. */
  lemma DownhillShape(bp: Blueprint)
    requires NodesOk(bp.nodes) && Downhill(bp) && |bp.nodes| <= MAX_DEPTH
    ensures Acyclic(GraphFor(bp).outgoing) && ShortPaths(bp.nodes, GraphFor(bp).outgoing)
  {
    hide NodesOk, Downhill, Forward, Closed;
    var ids, out := Ids(bp.nodes), GraphFor(bp).outgoing;
    DownhillForward(bp);
    ForwardIsAcyclic(ids, out, ids);
    forall p | Path(out, p) && p[0] in ids ensures |p| <= MAX_DEPTH {
      EndListed(ids, out, p);
      var i :| 0 <= i < |ids| && ids[i] == p[|p| - 1];
      ReversePath(out, ids, p, i);
    }
  }

  lemma EndListed(ids: seq<Id>, out: Outgoing, p: seq<Id>)
    requires Closed(ids, out) && Path(out, p) && p[0] in ids
    ensures p[|p| - 1] in ids
  {
    if |p| > 1 {
      assert Edge(out, p[|p| - 2], p[|p| - 1]);
    }
  }

  /** The rules of the first stage about one node. */
  predicate Sits(g: Graph, n: Node) {
    Connected(g, n) && ActionOk(g, n) && ConditionShapeOk(g, n) && GateOk(g, n)
  }

  /** What is left to check of a small drawing in order. */
  lemma DrawingAccepted(bp: Blueprint)
    requires HeaderOk(bp) && NodesOk(bp.nodes) && EdgesOk(bp.nodes, bp.edges) && Downhill(bp) && 1 < |bp.nodes| <= MAX_DEPTH
    requires OneWiredAction(GraphFor(bp), bp.nodes)
    requires forall i :: 0 <= i < |bp.nodes| ==> Sits(GraphFor(bp), bp.nodes[i])
    ensures StructureOk(bp, GraphFor(bp))
  {
    hide HeaderOk, NodesOk, EdgesOk, Downhill, GraphOf, OneWiredAction, Connected, ActionOk, ConditionShapeOk, GateOk, Acyclic, ShortPaths, GraphFor;
    GraphForIsIt(bp);
    DownhillShape(bp);
    assert forall i :: 0 <= i < |bp.nodes| ==> Sits(GraphFor(bp), bp.nodes[i]);
  }

  // ---------- small drawings ----------

  function Taken(w: Wire, v: Id): seq<(Id, bool)> {
    if w.to == v then [(w.from, w.when)] else []
  }

  lemma IntoOf(a: Wire, b: Wire, c: Wire, v: Id)
    ensures Into([a], v) == Taken(a, v)
    ensures Into([a, b], v) == Taken(a, v) + Taken(b, v)
    ensures Into([a, b, c], v) == Taken(a, v) + Taken(b, v) + Taken(c, v)
  {
    assert [a][..0] == [] && [a, b][..1] == [a] && [a, b, c][..2] == [a, b];
  }

  function Compares(id: Id, field: string, op: string, n: real): Node {
    Node(id, "condition", map["field" := JStr(field), "op" := JStr(op), "value" := JNum(n)])
  }

  function Buy(): Node {
    Node("a1", "action_buy", map[])
  }

  lemma WordsClean()
    ensures !Forbidden("dip") && !Forbidden("tick.price") && !Forbidden("tick.obi")
    ensures !T.Blank("dip") && !T.Blank("c1") && !T.Blank("c2") && !T.Blank("g1") && !T.Blank("a1")
  {
    hide Forbidden;
    NothingForbidden("dip");
    KnownNamesClean("tick.price");
    KnownNamesClean("tick.obi");
    assert "dip"[0] == 'd' && "c1"[0] == 'c' && "c2"[0] == 'c' && "g1"[0] == 'g' && "a1"[0] == 'a';
  }

  lemma ComparesOk(g: Graph, n: Node, field: string, op: string, v: real)
    requires n == Compares(n.id, field, op, v) && (field == "tick.price" || field == "tick.obi") && ConditionOp(op) && op != "in"
    requires IsKind(g, n.id, Condition)
    ensures ParamsOk(g, n)
  {
    hide Forbidden;
    WordsClean();
    assert n.params.Keys == {"field", "op", "value"};
    assert FieldOk(n);
  }

  /** The tree a comparison unfolds to. */
  lemma ComparesUnfolds(bp: Blueprint, g: Graph, id: Id, field: string, op: string, v: real)
    requires Find(bp.nodes, id) == Some(Compares(id, field, op, v)) && IsKind(g, id, Condition)
    requires (field == "tick.price" || field == "tick.obi")
    ensures Unfolds(bp, g, id, Test(id, Field(field), op, JNum(v)))
  {
    hide Forbidden;
    WordsClean();
    assert FieldOk(Compares(id, field, op, v));
  }

  // ---------- one condition ----------

  /** One comparison of the price under the action `a`. */
  function Single(id: Id, op: string, a: Node): Blueprint {
    Blueprint(1, "dip", [Compares(id, "tick.price", op, 0.5), a], [Wire(id, a.id, true)])
  }

  ghost predicate SingleOk(id: Id, op: string, a: Node) {
    && a.id == "a1" && KindOf(a.nodeType) == Some(Action) && ActionParams(a)
    && id != a.id && !T.Blank(id) && ConditionOp(op) && op != "in"
  }

  lemma SingleNodes(id: Id, op: string, a: Node)
    requires SingleOk(id, op, a)
    ensures var bp := Single(id, op, a);
            HeaderOk(bp) && NodesOk(bp.nodes) && EdgesOk(bp.nodes, bp.edges) && Downhill(bp)
  {
    hide Forbidden, T.Blank;
    WordsClean();
    var bp := Single(id, op, a);
    var ids := Ids(bp.nodes);
    assert ids[0] == id && ids[1] == a.id;
    assert bp.nodes[0].id == bp.edges[0].from && bp.nodes[1].id == bp.edges[0].to;
  }

  /** What the proofs below use of the graph. */
  predicate SingleGraph(bp: Blueprint, g: Graph, id: Id, a: Node)
    requires |bp.nodes| == 2
  {
    && Outs(g.incoming, "a1") == [(id, true)] && Outs(g.incoming, id) == []
    && "a1" in g.incoming && id in g.outgoing && "a1" !in g.outgoing && id !in g.incoming
    && IsKind(g, id, Condition) && IsKind(g, "a1", Action)
    && Find(bp.nodes, id) == Some(bp.nodes[0]) && Find(bp.nodes, "a1") == Some(a)
  }

  lemma SingleSeen(id: Id, op: string, a: Node)
    requires SingleOk(id, op, a)
    ensures NodesOk(Single(id, op, a).nodes)
    ensures SingleGraph(Single(id, op, a), GraphFor(Single(id, op, a)), id, a)
  {
    var bp := Single(id, op, a);
    SingleNodes(id, op, a);
    hide NodesOk, HeaderOk, EdgesOk, Downhill, GraphFor, Find;
    var w := bp.edges[0];
    IntoOf(w, w, w, "a1");
    IntoOf(w, w, w, id);
    hide From, Into;
    NodeSeen(bp, bp.nodes[0]);
    NodeSeen(bp, bp.nodes[1]);
    assert LeavesFrom(bp.edges, id) && !LeavesFrom(bp.edges, "a1");
  }

  lemma SingleWired(bp: Blueprint, g: Graph, id: Id, op: string, a: Node)
    requires SingleOk(id, op, a) && bp == Single(id, op, a) && SingleGraph(bp, g, id, a)
    ensures OneWiredAction(g, bp.nodes)
    ensures forall i :: 0 <= i < 2 ==>
              Sits(g, bp.nodes[i])
  {
    assert WiredAction(g, bp.nodes[1]) && !WiredAction(g, bp.nodes[0]);
    assert Operands(g, Outs(g.incoming, id)) == [];
  }

  /** One comparison under any action passes both stages. */
  lemma SingleAccepted(id: Id, op: string, a: Node)
    requires SingleOk(id, op, a)
    ensures NodesOk(Single(id, op, a).nodes)
    ensures StructureOk(Single(id, op, a), GraphFor(Single(id, op, a))) && SemanticsOk(Single(id, op, a), GraphFor(Single(id, op, a)))
  {
    hide NodesOk, HeaderOk, EdgesOk, Downhill, ParamsOk, GraphFor, OneWiredAction, Sits, StructureOk;
    var bp := Single(id, op, a);
    SingleNodes(id, op, a);
    SingleSeen(id, op, a);
    var g := GraphFor(bp);
    SingleWired(bp, g, id, op, a);
    DrawingAccepted(bp);
    ComparesOk(g, bp.nodes[0], "tick.price", op, 0.5);
    ActionAccepted(g, a);
  }

  lemma ActionAccepted(g: Graph, a: Node)
    requires IsKind(g, a.id, Action) && ActionParams(a)
    ensures ParamsOk(g, a)
  {
  }

  lemma SingleTrail(bp: Blueprint, g: Graph, id: Id, a: Node)
    requires |bp.nodes| == 2 && SingleGraph(bp, g, id, a)
    ensures WholeTrail(g, "a1", [(id, true)])
  {
    var chain := [(id, true)];
    assert Outs(g.incoming, "a1")[1..] == [];
    assert Link(g, "a1", chain, 0);
  }

  /** What it compiles to: one guard. */
  lemma SingleChain(id: Id, op: string, a: Node, p: Program, action: Node, chain: seq<(Id, bool)>, trees: map<Id, Guard>)
    requires SingleOk(id, op, a) && NodesOk(Single(id, op, a).nodes)
    requires Compiled(Single(id, op, a), GraphFor(Single(id, op, a)), p, action, chain, trees)
    ensures action == a && chain == [(id, true)] && id in trees
    ensures ChainGuards(chain, trees) == [Signed(Test(id, Field("tick.price"), op, JNum(0.5)), true)]
  {
    hide StructureOk, SemanticsOk, Unfolds, GraphFor, WholeTrail, Tabled, NodesOk;
    var bp := Single(id, op, a);
    var g := GraphFor(bp);
    SingleSeen(id, op, a);
    SingleTrail(bp, g, id, a);
    assert !WiredAction(g, bp.nodes[0]);
    OneTrail(g, "a1", chain, [(id, true)]);
    assert StepOf(bp, g, chain[0], Reverse(p.steps)[0], trees);
    ComparesUnfolds(bp, g, id, "tick.price", op, 0.5);
    UnfoldsOnce(bp, g, id, trees[id], Test(id, Field("tick.price"), op, JNum(0.5)));
  }

  lemma ShortIdsClean()
    ensures !Forbidden("c1") && !Forbidden("c2") && !Forbidden("g1") && !Forbidden("a1")
  {
    hide Forbidden;
    NothingForbidden("c1");
    NothingForbidden("c2");
    NothingForbidden("g1");
    NothingForbidden("a1");
  }

  /** Some layout there is: a blank between the pieces. */
  function Blanks(p: Program): seq<string> {
    seq(|Texts(p)| + 2, i requires 0 <= i < |Texts(p)| + 2 => " ")
  }

  lemma BlanksAreALayout()
    ensures LayoutOk(Blanks)
  {
    hide Forbidden;
    NothingForbidden(" ");
  }

  lemma NothingForbiddenInUse(bp: Blueprint, g: Graph, action: Node, gs: seq<Signed>)
    requires ActionTunables(action) == [] && forall i :: 0 <= i < |bp.nodes| ==> !Forbidden(bp.nodes[i].id)
    ensures !ForbiddenIdInUse(bp, g, action, gs)
  {
    hide Forbidden;
  }

  // ---------- a program that does not load ----------

  /** `tick.price != 0.5`, accepted and compiled. */
  method BangCompiles(layout: Layout, num: Numerals) returns (r: Result<(Program, string), ()>)
    requires LayoutOk(layout) && Decimal(num)
    ensures NodesOk(Single("c1", "!=", Buy()).nodes)
    ensures var bp := Single("c1", "!=", Buy()); StructureOk(bp, GraphFor(bp)) && SemanticsOk(bp, GraphFor(bp))
    ensures r.Ok? && !AllLoad(r.value.0.steps)
  {
    hide StructureOk, SemanticsOk, AllLoad, GraphFor, Forbidden, T.Blank, LayoutOk, Decimal, ForbiddenIdInUse, Compiled, Fires, Meaning;
    WordsClean();
    ShortIdsClean();
    var bp := Single("c1", "!=", Buy());
    SingleAccepted("c1", "!=", Buy());
    ghost var draft, action, chain, trees;
    r, draft, action, chain, trees := Generate(bp, GraphFor(bp), layout, num);
    SingleChain("c1", "!=", Buy(), draft, action, chain, trees);
    NothingForbiddenInUse(bp, GraphFor(bp), action, ChainGuards(chain, trees));
    ProgramMeansItsChain(bp, GraphFor(bp), draft, action, chain, trees);
    assert !Clean(ChainGuards(chain, trees)[0].guard);
  }

  // ---------- a name on two lines ----------

  function TwoLines(): string {
    "up\ndown"
  }

  /** Accepted, and the comment it is written into ends inside it. */
  lemma NameOnTwoLines(after: string)
    ensures NodesOk(Single("c1", "<", Buy()).nodes)
    ensures var bp := Single("c1", "<", Buy());
            StructureOk(bp.(name := TwoLines()), GraphFor(bp)) && SemanticsOk(bp.(name := TwoLines()), GraphFor(bp))
    ensures LineEnd(COMMENT + TwoLines() + after) < |COMMENT| + |TwoLines()|
  {
    hide StructureOk, SemanticsOk, GraphFor, Forbidden;
    WordsClean();
    var bp := Single("c1", "<", Buy());
    SingleAccepted("c1", "<", Buy());
    NothingForbidden(TwoLines());
    assert TwoLines()[0] == 'u' && !T.IsSpace('u');
    AnyNameAccepted(bp, GraphFor(bp), TwoLines());
    assert TwoLines()[2] == '\n';
    CommentHoldsName(TwoLines(), after);
  }

  // ---------- a program the scan refuses ----------

  lemma RatioForbidden()
    ensures Forbidden("ratio.1") && !T.Blank("ratio.1")
  {
    var s := "ratio.1";
    assert s[0] == 'r' && !T.IsSpace(s[0]);
    assert s[3..6] == "io.";
    PartIn(s, "io.", 3);
  }

  /** A condition called `ratio.1`, accepted by the first two stages and refused by the last scan. */
  method RatioRefused(layout: Layout, num: Numerals) returns (r: Result<(Program, string), ()>)
    requires LayoutOk(layout) && Decimal(num)
    ensures NodesOk(Single("ratio.1", "<", Buy()).nodes)
    ensures var bp := Single("ratio.1", "<", Buy()); StructureOk(bp, GraphFor(bp)) && SemanticsOk(bp, GraphFor(bp))
    ensures r.Err?
  {
    hide StructureOk, SemanticsOk, GraphFor, Forbidden, T.Blank, LayoutOk, Decimal;
    RatioForbidden();
    var id, bp := "ratio.1", Single("ratio.1", "<", Buy());
    SingleAccepted(id, "<", Buy());
    SingleSeen(id, "<", Buy());
    ghost var draft, action, chain, trees;
    r, draft, action, chain, trees := Generate(bp, GraphFor(bp), layout, num);
    SingleChain(id, "<", Buy(), draft, action, chain, trees);
    ghost var n := bp.nodes[0];
    assert n in bp.nodes && NumericNode(GraphFor(bp), n) && n.id == id;
    assert Shows(ChainGuards(chain, trees)[0].guard, id);
  }

  // ---------- a knob nobody reads ----------

  function IdleHold(): Node {
    Node("a1", "action_hold", map["price" := JNum(0.5)])
  }

  /** A hold with a price is accepted, and its price is a knob of the table that the text never reads. */
  lemma HoldExportsAnIdleKnob(p: Program, action: Node, chain: seq<(Id, bool)>, trees: map<Id, Guard>)
    requires NodesOk(Single("c1", "<", IdleHold()).nodes)
    requires Compiled(Single("c1", "<", IdleHold()), GraphFor(Single("c1", "<", IdleHold())), p, action, chain, trees)
    ensures var bp := Single("c1", "<", IdleHold()); StructureOk(bp, GraphFor(bp)) && SemanticsOk(bp, GraphFor(bp))
    ensures exists k :: k in Exported(p.tunables) && !SomeReads(Texts(p), k)
  {
    hide StructureOk, SemanticsOk, SomeReads, Texts, Exported, GraphFor, T.Blank, Forbidden;
    var bp := Single("c1", "<", IdleHold());
    WordsClean();
    SingleAccepted("c1", "<", IdleHold());
    SingleChain("c1", "<", IdleHold(), p, action, chain, trees);
    assert ActionTunables(action) != [];
    TextReadsTheTable(bp, GraphFor(bp), p, action, chain, trees);
  }

  // ---------- two conditions ----------

  function C1(): Node {
    Compares("c1", "tick.obi", ">", 0.5)
  }

  function C2(): Node {
    Compares("c2", "tick.price", "<", 0.2)
  }

  function T1(): Guard {
    Test("c1", Field("tick.obi"), ">", JNum(0.5))
  }

  function T2(): Guard {
    Test("c2", Field("tick.price"), "<", JNum(0.2))
  }

  /** Imbalance and price, for a world in which only one of the two conditions holds. */
  function World(obi: real, price: real): Env {
    Env(map["tick.obi" := VNum(obi), "tick.price" := VNum(price)], map[])
  }

  lemma Meanings(obi: real, price: real, ord: Order)
    ensures SignedMeaning(Signed(T1(), true), World(obi, price), ord) == Some(obi > 0.5)
    ensures SignedMeaning(Signed(T2(), true), World(obi, price), ord) == Some(price < 0.2)
  {
  }

  /** Both conditions drawn into the action. */
  function Both(): Blueprint {
    Blueprint(1, "dip", [C1(), C2(), Buy()], [Wire("c1", "a1", true), Wire("c2", "a1", true)])
  }

  /** Both conditions drawn into an or-gate, and the gate into the action. */
  function Either(): Blueprint {
    Blueprint(1, "dip", [C1(), C2(), Node("g1", "logic_or", map[]), Buy()],
              [Wire("c1", "g1", true), Wire("c2", "g1", true), Wire("g1", "a1", true)])
  }

  lemma BothNodes()
    ensures var bp := Both(); HeaderOk(bp) && NodesOk(bp.nodes) && EdgesOk(bp.nodes, bp.edges) && Downhill(bp)
  {
    hide Forbidden, T.Blank;
    WordsClean();
    var bp := Both();
    var ids := Ids(bp.nodes);
    assert ids[0] == "c1" && ids[1] == "c2" && ids[2] == "a1";
    assert bp.nodes[0].id == bp.edges[0].from && bp.nodes[2].id == bp.edges[0].to;
    assert bp.nodes[1].id == bp.edges[1].from && bp.nodes[2].id == bp.edges[1].to;
  }

  predicate BothGraph(bp: Blueprint, g: Graph) {
    && Outs(g.incoming, "a1") == [("c1", true), ("c2", true)] && Outs(g.incoming, "c1") == [] && Outs(g.incoming, "c2") == []
    && "a1" in g.incoming && "c1" in g.outgoing && "c2" in g.outgoing && "a1" !in g.outgoing
    && IsKind(g, "c1", Condition) && IsKind(g, "c2", Condition) && IsKind(g, "a1", Action)
    && Find(bp.nodes, "c1") == Some(C1()) && Find(bp.nodes, "c2") == Some(C2())
  }

  lemma BothSeen()
    ensures NodesOk(Both().nodes) && BothGraph(Both(), GraphFor(Both()))
  {
    var bp := Both();
    BothNodes();
    hide NodesOk, HeaderOk, EdgesOk, Downhill, GraphFor, Find;
    var a, b := bp.edges[0], bp.edges[1];
    IntoOf(a, b, b, "a1");
    IntoOf(a, b, b, "c1");
    IntoOf(a, b, b, "c2");
    hide From, Into;
    NodeSeen(bp, bp.nodes[0]);
    NodeSeen(bp, bp.nodes[1]);
    NodeSeen(bp, bp.nodes[2]);
    assert bp.edges[0].from == "c1" && bp.edges[1].from == "c2";
  }

  lemma BothCondition(g: Graph, n: Node)
    requires (n == Both().nodes[0] || n == Both().nodes[1]) && BothGraph(Both(), g)
    ensures Sits(g, n) && !WiredAction(g, n)
  {
    assert Operands(g, Outs(g.incoming, n.id)) == [];
  }

  lemma BothAction(g: Graph, n: Node)
    requires n == Both().nodes[2] && BothGraph(Both(), g)
    ensures Sits(g, n) && WiredAction(g, n)
  {
  }

  lemma BothWired(bp: Blueprint, g: Graph)
    requires bp == Both() && BothGraph(bp, g)
    ensures OneWiredAction(g, bp.nodes) && forall i :: 0 <= i < 3 ==> Sits(g, bp.nodes[i])
  {
    hide BothGraph, Sits, WiredAction;
    BothCondition(g, bp.nodes[0]);
    BothCondition(g, bp.nodes[1]);
    BothAction(g, bp.nodes[2]);
    assert WiredAction(g, bp.nodes[2]);
  }

  lemma BothAccepted()
    ensures NodesOk(Both().nodes) && StructureOk(Both(), GraphFor(Both())) && SemanticsOk(Both(), GraphFor(Both()))
  {
    hide NodesOk, HeaderOk, EdgesOk, Downhill, ParamsOk, GraphFor, OneWiredAction, Sits, StructureOk;
    var bp := Both();
    BothNodes();
    BothSeen();
    var g := GraphFor(bp);
    BothWired(bp, g);
    DrawingAccepted(bp);
    ComparesOk(g, bp.nodes[0], "tick.obi", ">", 0.5);
    ComparesOk(g, bp.nodes[1], "tick.price", "<", 0.2);
    ActionAccepted(g, bp.nodes[2]);
  }

  lemma BothTrail(bp: Blueprint, g: Graph)
    requires BothGraph(bp, g)
    ensures WholeTrail(g, "a1", [("c1", true)])
  {
    var chain := [("c1", true)];
    assert Link(g, "a1", chain, 0);
  }

  lemma BothChain(p: Program, action: Node, chain: seq<(Id, bool)>, trees: map<Id, Guard>)
    requires NodesOk(Both().nodes) && Compiled(Both(), GraphFor(Both()), p, action, chain, trees)
    ensures action == Buy() && chain == [("c1", true)] && "c1" in trees && ChainGuards(chain, trees) == [Signed(T1(), true)]
  {
    hide StructureOk, SemanticsOk, Unfolds, GraphFor, WholeTrail, Tabled, NodesOk;
    var bp := Both();
    var g := GraphFor(bp);
    BothSeen();
    BothTrail(bp, g);
    OneTrail(g, "a1", chain, [("c1", true)]);
    assert StepOf(bp, g, chain[0], Reverse(p.steps)[0], trees);
    ComparesUnfolds(bp, g, "c1", "tick.obi", ">", 0.5);
    UnfoldsOnce(bp, g, "c1", trees["c1"], T1());
  }

  /** Two conditions under one action: accepted, and the order fires although the second says no. */
  method SecondGuardIgnored(layout: Layout, num: Numerals, ord: Order) returns (r: Result<(Program, string), ()>)
    requires LayoutOk(layout) && Decimal(num)
    ensures NodesOk(Both().nodes) && StructureOk(Both(), GraphFor(Both())) && SemanticsOk(Both(), GraphFor(Both()))
    ensures SignedMeaning(Signed(T2(), true), World(0.9, 0.9), ord) == Some(false)
    ensures r.Ok? && Fires(r.value.0.steps, World(0.9, 0.9), ord) == Some(true)
  {
    hide StructureOk, SemanticsOk, AllLoad, GraphFor, Forbidden, LayoutOk, Decimal, Fires, SignedMeaning, Meaning, ForbiddenIdInUse, Compiled;
    BothAccepted();
    ShortIdsClean();
    var bp := Both();
    ghost var draft, action, chain, trees;
    r, draft, action, chain, trees := Generate(bp, GraphFor(bp), layout, num);
    BothChain(draft, action, chain, trees);
    NothingForbiddenInUse(bp, GraphFor(bp), action, ChainGuards(chain, trees));
    ProgramMeansItsChain(bp, GraphFor(bp), draft, action, chain, trees);
    Meanings(0.9, 0.9, ord);
    AndGateFirst([Signed(T1(), true)], World(0.9, 0.9), ord);
    NoGuards(World(0.9, 0.9), ord);
    assert [Signed(T1(), true)][1..] == [];
    assert Clean(T1());
  }

  // ---------- an or-gate ----------

  lemma EitherListed()
    ensures var bp := Either(); HeaderOk(bp) && NodesOk(bp.nodes)
  {
    hide Forbidden, T.Blank;
    WordsClean();
  }

  lemma EitherEdges()
    ensures var bp := Either(); EdgesOk(bp.nodes, bp.edges)
  {
    var bp := Either();
    var ids := Ids(bp.nodes);
    assert ids[0] == "c1" && ids[1] == "c2" && ids[2] == "g1" && ids[3] == "a1";
  }

  lemma EitherNodes()
    ensures var bp := Either(); HeaderOk(bp) && NodesOk(bp.nodes) && EdgesOk(bp.nodes, bp.edges) && Downhill(bp)
  {
    hide HeaderOk, NodesOk, EdgesOk;
    EitherListed();
    EitherEdges();
    var bp := Either();
    assert bp.nodes[0].id == bp.edges[0].from && bp.nodes[2].id == bp.edges[0].to;
    assert bp.nodes[1].id == bp.edges[1].from && bp.nodes[2].id == bp.edges[1].to;
    assert bp.nodes[2].id == bp.edges[2].from && bp.nodes[3].id == bp.edges[2].to;
  }

  predicate EitherGraph(bp: Blueprint, g: Graph) {
    && Outs(g.incoming, "a1") == [("g1", true)] && Outs(g.incoming, "g1") == [("c1", true), ("c2", true)]
    && Outs(g.incoming, "c1") == [] && Outs(g.incoming, "c2") == []
    && "a1" in g.incoming && "g1" in g.incoming && "c1" in g.outgoing && "c2" in g.outgoing && "a1" !in g.outgoing
    && IsKind(g, "c1", Condition) && IsKind(g, "c2", Condition) && IsKind(g, "g1", Gate) && IsKind(g, "a1", Action)
    && Find(bp.nodes, "c1") == Some(C1()) && Find(bp.nodes, "c2") == Some(C2()) && Find(bp.nodes, "g1") == Some(Node("g1", "logic_or", map[]))
  }

  lemma EitherInto()
    ensures var e := Either().edges;
            && Into(e, "a1") == [("g1", true)] && Into(e, "g1") == [("c1", true), ("c2", true)]
            && Into(e, "c1") == [] && Into(e, "c2") == []
  {
    hide Into;
    var e := Either().edges;
    IntoOf(e[0], e[1], e[2], "a1");
    IntoOf(e[0], e[1], e[2], "g1");
    IntoOf(e[0], e[1], e[2], "c1");
    IntoOf(e[0], e[1], e[2], "c2");
  }

  lemma EitherFrom()
    ensures var e := Either().edges;
            LeavesFrom(e, "c1") && LeavesFrom(e, "c2") && !LeavesFrom(e, "a1")
  {
    var e := Either().edges;
    assert e[0].from == "c1" && e[1].from == "c2";
  }

  lemma EitherSeen()
    ensures NodesOk(Either().nodes) && EitherGraph(Either(), GraphFor(Either()))
  {
    var bp := Either();
    EitherNodes();
    EitherInto();
    EitherFrom();
    hide NodesOk, HeaderOk, EdgesOk, Downhill, GraphFor, Find, From, Into, LeavesFrom;
    NodeSeen(bp, bp.nodes[0]);
    NodeSeen(bp, bp.nodes[1]);
    NodeSeen(bp, bp.nodes[2]);
    NodeSeen(bp, bp.nodes[3]);
  }

  lemma EitherCondition(g: Graph, n: Node)
    requires (n == Either().nodes[0] || n == Either().nodes[1]) && EitherGraph(Either(), g)
    ensures Sits(g, n) && !WiredAction(g, n)
  {
    assert Operands(g, Outs(g.incoming, n.id)) == [];
  }

  lemma EitherGate(g: Graph, n: Node)
    requires n == Either().nodes[2] && EitherGraph(Either(), g)
    ensures Sits(g, n) && !WiredAction(g, n)
  {
  }

  lemma EitherAction(g: Graph, n: Node)
    requires n == Either().nodes[3] && EitherGraph(Either(), g)
    ensures Sits(g, n) && WiredAction(g, n)
  {
  }

  lemma EitherWired(bp: Blueprint, g: Graph)
    requires bp == Either() && EitherGraph(bp, g)
    ensures OneWiredAction(g, bp.nodes) && forall i :: 0 <= i < 4 ==> Sits(g, bp.nodes[i])
  {
    hide EitherGraph, Sits, WiredAction;
    EitherCondition(g, bp.nodes[0]);
    EitherCondition(g, bp.nodes[1]);
    EitherGate(g, bp.nodes[2]);
    EitherAction(g, bp.nodes[3]);
    assert WiredAction(g, bp.nodes[3]);
  }

  lemma EitherAccepted()
    ensures NodesOk(Either().nodes) && StructureOk(Either(), GraphFor(Either())) && SemanticsOk(Either(), GraphFor(Either()))
  {
    hide NodesOk, HeaderOk, EdgesOk, Downhill, GraphFor, EitherGraph, OneWiredAction, Sits, StructureOk, SemanticsOk;
    var bp := Either();
    EitherNodes();
    EitherSeen();
    EitherWired(bp, GraphFor(bp));
    DrawingAccepted(bp);
    EitherParams(bp, GraphFor(bp));
  }

  lemma EitherParams(bp: Blueprint, g: Graph)
    requires bp == Either() && EitherGraph(bp, g)
    ensures SemanticsOk(bp, g)
  {
    hide ParamsOk;
    ComparesOk(g, bp.nodes[0], "tick.obi", ">", 0.5);
    ComparesOk(g, bp.nodes[1], "tick.price", "<", 0.2);
    GateAccepted(g, bp.nodes[2]);
    ActionAccepted(g, bp.nodes[3]);
  }

  lemma GateAccepted(g: Graph, n: Node)
    requires IsKind(g, n.id, Gate) && n.params == map[]
    ensures ParamsOk(g, n)
  {
  }

  function OrTree(): Guard {
    Join(false, [Signed(T1(), true), Signed(T2(), true)])
  }

  lemma EitherUnfolds(bp: Blueprint, g: Graph)
    requires EitherGraph(bp, g)
    ensures Unfolds(bp, g, "c1", T1()) && Unfolds(bp, g, "g1", OrTree())
  {
    ComparesUnfolds(bp, g, "c1", "tick.obi", ">", 0.5);
    ComparesUnfolds(bp, g, "c2", "tick.price", "<", 0.2);
  }

  lemma EitherTrail(bp: Blueprint, g: Graph)
    requires EitherGraph(bp, g)
    ensures WholeTrail(g, "a1", [("g1", true), ("c1", true)])
  {
    var chain := [("g1", true), ("c1", true)];
    assert Outs(g.incoming, "a1")[1..] == [];
    assert Link(g, "a1", chain, 0) && Link(g, "a1", chain, 1);
  }

  lemma EitherChain(p: Program, action: Node, chain: seq<(Id, bool)>, trees: map<Id, Guard>)
    requires NodesOk(Either().nodes) && Compiled(Either(), GraphFor(Either()), p, action, chain, trees)
    ensures action == Buy() && chain == [("g1", true), ("c1", true)] && "c1" in trees && "g1" in trees
    ensures trees["c1"] == T1() && trees["g1"] == OrTree()
  {
    hide StructureOk, SemanticsOk, Unfolds, GraphFor, WholeTrail, Tabled, NodesOk;
    var bp := Either();
    var g := GraphFor(bp);
    EitherSeen();
    EitherTrail(bp, g);
    EitherUnfolds(bp, g);
    OneTrail(g, "a1", chain, [("g1", true), ("c1", true)]);
    var steps := Reverse(p.steps);
    assert StepOf(bp, g, chain[0], steps[0], trees) && StepOf(bp, g, chain[1], steps[1], trees);
    UnfoldsOnce(bp, g, "c1", trees["c1"], T1());
    UnfoldsOnce(bp, g, "g1", trees["g1"], OrTree());
  }

  lemma OrMeanings(ord: Order)
    ensures var w := World(0.1, 0.1);
            && SignedMeaning(Signed(T1(), true), w, ord) == Some(false) && SignedMeaning(Signed(T2(), true), w, ord) == Some(true)
            && Meaning(OrTree(), w, ord) == Some(true)
  {
    var w := World(0.1, 0.1);
    Meanings(0.1, 0.1, ord);
    hide SignedMeaning;
    var a, b := Signed(T1(), true), Signed(T2(), true);
    OrOfTwo(a, b, w, ord);
    assert OrTree() == Join(false, [a, b]);
  }

  lemma OrOfTwo(a: Signed, b: Signed, w: Env, ord: Order)
    ensures Meaning(Join(false, [a, b]), w, ord) ==
            if SignedMeaning(a, w, ord) == Some(false) then SignedMeaning(b, w, ord) else SignedMeaning(a, w, ord)
  {
    var both := [a, b];
    var two := seq(2, i requires 0 <= i < 2 => SignedMeaning(both[i], w, ord));
    var last := [SignedMeaning(b, w, ord)];
    assert Meaning(Join(false, both), w, ord) == Settle(false, two);
    assert two[1..] == last && last[1..] == [];
    assert Settle(false, last) == last[0];
  }

  /** An or-gate under the action: accepted, true through its second input, and the order blocked. */
  method OrGateBlocked(layout: Layout, num: Numerals, ord: Order) returns (r: Result<(Program, string), ()>)
    requires LayoutOk(layout) && Decimal(num)
    ensures NodesOk(Either().nodes) && StructureOk(Either(), GraphFor(Either())) && SemanticsOk(Either(), GraphFor(Either()))
    ensures Unfolds(Either(), GraphFor(Either()), "g1", OrTree()) && Meaning(OrTree(), World(0.1, 0.1), ord) == Some(true)
    ensures r.Ok? && Fires(r.value.0.steps, World(0.1, 0.1), ord) == Some(false)
  {
    hide StructureOk, SemanticsOk, AllLoad, GraphFor, Forbidden, LayoutOk, Decimal, Fires, SignedMeaning, Meaning, ForbiddenIdInUse, Compiled, Unfolds, Find;
    EitherAccepted();
    EitherSeen();
    ShortIdsClean();
    var bp := Either();
    EitherUnfolds(bp, GraphFor(bp));
    ghost var draft, action, chain, trees;
    r, draft, action, chain, trees := Generate(bp, GraphFor(bp), layout, num);
    EitherChain(draft, action, chain, trees);
    NothingForbiddenInUse(bp, GraphFor(bp), action, ChainGuards(chain, trees));
    OrMeanings(ord);
    EitherFires(draft, action, chain, trees, ord);
  }

  lemma EitherFires(p: Program, action: Node, chain: seq<(Id, bool)>, trees: map<Id, Guard>, ord: Order)
    requires NodesOk(Either().nodes) && StructureOk(Either(), GraphFor(Either()))
    requires Compiled(Either(), GraphFor(Either()), p, action, chain, trees)
    ensures Fires(p.steps, World(0.1, 0.1), ord) == Some(false)
  {
    hide StructureOk, SemanticsOk, AllLoad, GraphFor, Fires, SignedMeaning, Meaning, Compiled, Unfolds, Find, NodesOk;
    var bp := Either();
    EitherSeen();
    EitherChain(p, action, chain, trees);
    OrMeanings(ord);
    EitherLoads(p, action, chain, trees);
    ProgramWithGate(bp, GraphFor(bp), p, action, chain, trees, 0, World(0.1, 0.1), ord);
    NoGuards(World(0.1, 0.1), ord);
    assert ChainGuards(chain, trees)[..0] == [] && ChainGuards(chain, trees)[2..] == [];
  }

  lemma EitherLoads(p: Program, action: Node, chain: seq<(Id, bool)>, trees: map<Id, Guard>)
    requires NodesOk(Either().nodes) && Compiled(Either(), GraphFor(Either()), p, action, chain, trees)
    ensures AllLoad(p.steps)
  {
    hide StructureOk, SemanticsOk, AllLoad, GraphFor, Fires, Meaning, Compiled, Unfolds, Find, NodesOk;
    EitherChain(p, action, chain, trees);
    ProgramMeansItsChain(Either(), GraphFor(Either()), p, action, chain, trees);
    ChainGuardsAt(chain, trees, 0);
    ChainGuardsAt(chain, trees, 1);
    assert Clean(T1()) && Clean(T2());
  }
}
