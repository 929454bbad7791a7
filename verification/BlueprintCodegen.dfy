/** Stages two and three of `blueprint.rs`: the parameter rules and the generator. */
module BlueprintCodegen {
  import opened Wrappers
  import opened BlueprintGraph
  import opened BlueprintStructure
  import opened GuardCode
  import opened Lua
  import Text

  /* On a validated blueprint the generator never misses a key, walks the guard chain to its end, and
  emits for every guard the text of its meaning. */

  // ---------- stage two ----------

  /** The readable fields, each with the Lua expression it compiles to. */
  function FieldExpr(field: string): (r: Option<string>)
    ensures r.Some? ==> r.value == if field == "account.available_balance" then "tick.available_balance" else field
  {
    if field == "tick.price" || field == "tick.mid_price" || field == "tick.time_left_sec"
       || field == "tick.trend_confirmed" || field == "tick.obi" then Some(field)
    else if field == "account.available_balance" then Some("tick.available_balance")
    else None
  }

  predicate FieldOk(n: Node) {
    "field" in n.params && n.params["field"].JStr? && !Forbidden(n.params["field"].s) && FieldExpr(n.params["field"].s).Some?
  }

  predicate TextOk(v: Json) {
    v.JStr? ==> !Forbidden(v.s)
  }

  predicate SourceParams(n: Node) {
    if n.nodeType == "data_source" then FieldOk(n) && n.params.Keys <= {"field"}
    else "value" in n.params && Scalar(n.params["value"]) && TextOk(n.params["value"]) && n.params.Keys <= {"value"}
  }

  predicate ConditionParams(g: Graph, n: Node) {
    && "op" in n.params && n.params["op"].JStr? && ConditionOp(n.params["op"].s)
    && "value" in n.params && TextOk(n.params["value"])
    && (if n.params["op"].s == "in" then ListOk(n.params["value"]) else Scalar(n.params["value"]))
    && n.params.Keys <= {"op", "value", "field"}
    && if "field" in n.params then FieldOk(n) else Operands(g, Outs(g.incoming, n.id)) != []
  }

  predicate ListOk(v: Json) {
    GuardCode.Members(v) && forall i :: 0 <= i < |v.items| ==> TextOk(v.items[i])
  }

  predicate ActionParams(n: Node) {
    && n.params.Keys <= {"price", "budget_ratio"}
    && ("price" in n.params ==> n.params["price"].JNum?) && ("budget_ratio" in n.params ==> n.params["budget_ratio"].JNum?)
  }

  predicate ParamsOk(g: Graph, n: Node) {
    && (IsKind(g, n.id, Source) ==> SourceParams(n))
    && (IsKind(g, n.id, Condition) ==> ConditionParams(g, n))
    && (IsKind(g, n.id, Gate) ==> n.params == map[])
    && (IsKind(g, n.id, Action) ==> ActionParams(n))
  }

  ghost predicate SemanticsOk(bp: Blueprint, g: Graph) {
    forall i :: 0 <= i < |bp.nodes| ==> ParamsOk(g, bp.nodes[i])
  }

  /** No parameter outside the allowed ones. */
  method OnlyKeys(params: map<string, Json>, allowed: set<string>) returns (ok: bool)
    ensures ok <==> params.Keys <= allowed
  {
    var rest := params.Keys;
    while rest != {}
      invariant rest <= params.Keys && params.Keys - rest <= allowed
    {
      var key :| key in rest;
      if key !in allowed {
        return false;
      }
      rest := rest - {key};
    }
    return true;
  }

  /** A parameter that must be a string when it is there. */
  method StringParam(n: Node, key: string) returns (r: Result<Option<string>, ()>)
    ensures r.Err? <==> key in n.params && !n.params[key].JStr?
    ensures r.Ok? ==> (r.value.None? <==> key !in n.params) && (r.value.Some? ==> n.params[key] == JStr(r.value.value))
  {
    if key !in n.params {
      return Ok(None);
    }
    match n.params[key] {
      case JStr(text) => return Ok(Some(text));
      case _ => return Err(());
    }
  }

  method CheckField(field: string) returns (ok: bool)
    ensures ok <==> !Forbidden(field) && FieldExpr(field).Some?
  {
    if Forbidden(field) {
      return false;
    }
    return FieldExpr(field).Some?;
  }

  method CheckDataSource(n: Node) returns (ok: bool)
    requires n.nodeType == "data_source"
    ensures ok <==> SourceParams(n)
  {
    var field := StringParam(n, "field");
    if field.Err? || field.value.None? {
      return false;
    }
    ok := CheckField(field.value.value);
    if ok {
      ok := OnlyKeys(n.params, {"field"});
    }
  }

  method CheckConstant(n: Node) returns (ok: bool)
    requires n.nodeType != "data_source"
    ensures ok <==> SourceParams(n)
  {
    if "value" !in n.params {
      return false;
    }
    match n.params["value"] {
      case JStr(text) => if Forbidden(text) { return false; }
      case JNum(_) =>
      case JBool(_) =>
      case _ => return false;
    }
    ok := OnlyKeys(n.params, {"value"});
  }

  /** The list of an `in`: not empty, numbers and strings only, no string forbidden. */
  method CheckMembers(v: Json) returns (ok: bool)
    ensures ok <==> ListOk(v)
  {
    if !v.JArr? || v.items == [] {
      return false;
    }
    for i := 0 to |v.items|
      invariant forall j :: 0 <= j < i ==> (v.items[j].JNum? || v.items[j].JStr?) && TextOk(v.items[j])
    {
      if !v.items[i].JNum? && !v.items[i].JStr? {
        return false;
      }
      if v.items[i].JStr? && Forbidden(v.items[i].s) {
        return false;
      }
    }
    return true;
  }

  /** The compared value, by operator. */
  method CheckValue(op: string, v: Json) returns (ok: bool)
    ensures ok <==> TextOk(v) && if op == "in" then ListOk(v) else Scalar(v)
  {
    if op == "in" {
      ok := CheckMembers(v);
      if !ok {
        return false;
      }
    } else if !v.JNum? && !v.JStr? && !v.JBool? {
      return false;
    }
    return !(v.JStr? && Forbidden(v.s));
  }

  /** The left side: the field when there is one, else an operand among the inputs. */
  method CheckLeft(g: Graph, n: Node) returns (ok: bool)
    ensures ok <==> if "field" in n.params then FieldOk(n) else Operands(g, Outs(g.incoming, n.id)) != []
  {
    var field := StringParam(n, "field");
    if field.Err? {
      return false;
    }
    if field.value.Some? {
      ok := CheckField(field.value.value);
    } else {
      var operands, _ := SplitInputs(g, Outs(g.incoming, n.id));
      ok := operands != [];
    }
  }

  method CheckComparison(g: Graph, n: Node) returns (ok: bool)
    ensures ok <==> ConditionParams(g, n)
  {
    hide ListOk, FieldOk, TextOk;
    var op := StringParam(n, "op");
    if op.Err? || op.value.None? || !ConditionOp(op.value.value) || "value" !in n.params {
      return false;
    }
    ok := CheckValue(op.value.value, n.params["value"]);
    if !ok {
      return false;
    }
    ok := OnlyKeys(n.params, {"op", "value", "field"});
    if ok {
      ok := CheckLeft(g, n);
    }
  }

  method CheckOrder(n: Node) returns (ok: bool)
    ensures ok <==> ActionParams(n)
  {
    ok := OnlyKeys(n.params, {"price", "budget_ratio"});
    if !ok || ("price" in n.params && !n.params["price"].JNum?) {
      return false;
    }
    return !("budget_ratio" in n.params && !n.params["budget_ratio"].JNum?);
  }

  method CheckNode(g: Graph, n: Node) returns (ok: bool)
    requires n.id in g.kinds
    ensures ok <==> ParamsOk(g, n)
  {
    match g.kinds[n.id] {
      case Source =>
        if n.nodeType == "data_source" {
          ok := CheckDataSource(n);
        } else {
          ok := CheckConstant(n);
        }
      case Condition => ok := CheckComparison(g, n);
      case Gate =>
        ok := OnlyKeys(n.params, {});
        assert n.params == map[] <==> n.params.Keys == {};
      case Action => ok := CheckOrder(n);
    }
  }

  method ValidateSemantics(bp: Blueprint, g: Graph) returns (bad: Option<Id>)
    requires forall i :: 0 <= i < |bp.nodes| ==> bp.nodes[i].id in g.kinds
    ensures bad.None? <==> SemanticsOk(bp, g)
  {
    for i := 0 to |bp.nodes|
      invariant forall j :: 0 <= j < i ==> ParamsOk(g, bp.nodes[j])
    {
      var ok := CheckNode(g, bp.nodes[i]);
      if !ok {
        return Some(bp.nodes[i].id);
      }
    }
    return None;
  }

  // ---------- what a node unfolds to ----------

  function Find(nodes: seq<Node>, id: Id): (r: Option<Node>)
    ensures r.Some? ==> r.value.id == id && r.value in nodes
    ensures r.None? ==> id !in Ids(nodes)
  {
    if nodes == [] then None
    else if nodes[0].id == id then Some(nodes[0])
    else
      var rest := Find(nodes[1..], id);
      assert Ids(nodes) == [nodes[0].id] + Ids(nodes[1..]);
      rest
  }

  /** The value a data source or constant stands for. */
  predicate Provides(n: Node, o: Operand) {
    if n.nodeType == "data_source" then FieldOk(n) && o == Field(FieldExpr(n.params["field"].s).value)
    else "value" in n.params && o == Knob(n.id, n.params["value"])
  }

  /** The left side of a condition: its own field, or its one operand edge. */
  predicate LeftSide(bp: Blueprint, g: Graph, n: Node, o: Operand) {
    if "field" in n.params then FieldOk(n) && o == Field(FieldExpr(n.params["field"].s).value)
    else
      var operands := Operands(g, Outs(g.incoming, n.id));
      operands != [] && Find(bp.nodes, operands[0]).Some? && Provides(Find(bp.nodes, operands[0]).value, o)
  }

  /** `t` is the drawing below guard node `id`, unfolded. */
  predicate Unfolds(bp: Blueprint, g: Graph, id: Id, t: Guard)
    decreases t
  {
    && Find(bp.nodes, id).Some?
    && var n := Find(bp.nodes, id).value;
    match t
    case Test(knob, left, op, value) =>
      && IsKind(g, id, Condition) && knob == id && LeftSide(bp, g, n, left)
      && "op" in n.params && n.params["op"] == JStr(op) && "value" in n.params && n.params["value"] == value
    case Join(conj, inputs) =>
      && IsKind(g, id, Gate) && conj == (n.nodeType == "logic_and") && |inputs| == |Outs(g.incoming, id)|
      && forall i :: 0 <= i < |inputs| ==>
                       && inputs[i].when == Outs(g.incoming, id)[i].1
                       && Unfolds(bp, g, Outs(g.incoming, id)[i].0, inputs[i].guard)
  }

  /** The drawing below a node is one tree. */
  lemma {:induction false} UnfoldsOnce(bp: Blueprint, g: Graph, id: Id, t: Guard, u: Guard)
    requires Unfolds(bp, g, id, t) && Unfolds(bp, g, id, u)
    ensures t == u
    decreases t
  {
    if t.Join? {
      forall i | 0 <= i < |t.inputs| ensures t.inputs[i] == u.inputs[i] {
        UnfoldsOnce(bp, g, Outs(g.incoming, id)[i].0, t.inputs[i].guard, u.inputs[i].guard);
      }
      assert t.inputs == u.inputs;
    }
  }

  lemma OneText(bp: Blueprint, g: Graph, id: Id, t: Guard)
    requires Unfolds(bp, g, id, t)
    ensures forall u :: Unfolds(bp, g, id, u) ==> Emit(t) == Emit(u)
  {
    forall u | Unfolds(bp, g, id, u) ensures Emit(t) == Emit(u) {
      UnfoldsOnce(bp, g, id, t, u);
    }
  }

  // ---------- stage three: expressions per node ----------

  ghost predicate Valued(bp: Blueprint, id: Id, values: map<Id, Operand>) {
    && id in values && Find(bp.nodes, id).Some? && Provides(Find(bp.nodes, id).value, values[id])
    && (values[id].Knob? ==> Scalar(values[id].value))
  }

  ghost predicate Guarded(bp: Blueprint, g: Graph, id: Id, guards: map<Id, seq<Token>>, trees: map<Id, Guard>) {
    && id in guards && id in trees && guards[id] == Emit(trees[id]) && Wf(trees[id]) && Unfolds(bp, g, id, trees[id])
  }

  /** Every node listed has its expression ready. */
  ghost predicate Ready(bp: Blueprint, g: Graph, done: seq<Id>,
                        values: map<Id, Operand>, guards: map<Id, seq<Token>>, trees: map<Id, Guard>) {
    && (forall id :: id in done && IsKind(g, id, Source) ==> Valued(bp, id, values))
    && (forall id :: id in done && ProducesGuard(g, id) ==> Guarded(bp, g, id, guards, trees))
  }

  /** What the first two stages leave known of one node. */
  predicate NodeChecked(bp: Blueprint, g: Graph, n: Node) {
    && Find(bp.nodes, n.id) == Some(n) && n.id in g.kinds && KindOf(n.nodeType) == Some(g.kinds[n.id])
    && ParamsOk(g, n) && GateOk(g, n)
  }

  lemma NodeAt(bp: Blueprint, g: Graph, id: Id)
    requires StructureOk(bp, g) && SemanticsOk(bp, g) && id in Ids(bp.nodes)
    ensures Find(bp.nodes, id).Some? && NodeChecked(bp, g, Find(bp.nodes, id).value)
  {
    var n := Find(bp.nodes, id).value;
    var i :| 0 <= i < |bp.nodes| && bp.nodes[i] == n;
    assert ParamsOk(g, bp.nodes[i]) && GateOk(g, bp.nodes[i]);
  }

  lemma {:induction false} OperandsFrom(g: Graph, ins: seq<(Id, bool)>) returns (k: nat)
    requires Operands(g, ins) != []
    ensures k < |ins| && ins[k].0 == Operands(g, ins)[0] && IsKind(g, ins[k].0, Source)
    decreases |ins|
  {
    if IsKind(g, ins[0].0, Source) {
      k := 0;
    } else {
      k := OperandsFrom(g, ins[1..]);
      k := k + 1;
    }
  }

  /** Everything drawn into a node comes before it in the order. */
  lemma InputsBefore(bp: Blueprint, g: Graph, order: seq<Id>, i: nat, k: nat)
    requires GraphOf(bp, g) && Forward(g.outgoing, order) && i < |order| && k < |Outs(g.incoming, order[i])|
    ensures Outs(g.incoming, order[i])[k].0 in order[..i]
  {
    IncomingIsEdge(bp, g, order[i], k);
  }

  method EmitSource(bp: Blueprint, g: Graph, n: Node) returns (o: Operand)
    requires SourceParams(n)
    ensures Provides(n, o) && (o.Knob? ==> Scalar(o.value))
  {
    if n.nodeType == "data_source" {
      o := Field(FieldExpr(n.params["field"].s).value);
    } else {
      o := Knob(n.id, n.params["value"]);
    }
  }

  method EmitCondition(bp: Blueprint, g: Graph, n: Node, values: map<Id, Operand>) returns (text: seq<Token>, ghost t: Guard)
    requires Find(bp.nodes, n.id) == Some(n) && IsKind(g, n.id, Condition) && ConditionParams(g, n)
    requires "field" !in n.params ==> Valued(bp, Operands(g, Outs(g.incoming, n.id))[0], values)
    ensures text == Emit(t) && Wf(t) && Unfolds(bp, g, n.id, t)
    ensures forall u :: Unfolds(bp, g, n.id, u) ==> text == Emit(u)
  {
    var left;
    if "field" in n.params {
      left := Field(FieldExpr(n.params["field"].s).value);
    } else {
      left := values[Operands(g, Outs(g.incoming, n.id))[0]];
    }
    text := EmitTest(n.id, left, n.params["op"].s, n.params["value"]);
    t := Test(n.id, left, n.params["op"].s, n.params["value"]);
    OneText(bp, g, n.id, t);
  }

  /** The unfolded inputs of a gate, in drawing order. */
  predicate InputsOf(bp: Blueprint, g: Graph, ins: seq<(Id, bool)>, inputs: seq<Signed>) {
    && |inputs| == |ins|
    && forall k :: 0 <= k < |ins| ==> InputOf(bp, g, ins[k], inputs[k])
  }

  predicate InputOf(bp: Blueprint, g: Graph, e: (Id, bool), s: Signed) {
    s.when == e.1 && Unfolds(bp, g, e.0, s.guard) && Wf(s.guard)
  }

  lemma InputsMore(bp: Blueprint, g: Graph, ins: seq<(Id, bool)>, k: nat, inputs: seq<Signed>, s: Signed)
    requires k < |ins| && InputsOf(bp, g, ins[..k], inputs) && InputOf(bp, g, ins[k], s)
    ensures InputsOf(bp, g, ins[..k + 1], inputs + [s]) && EmitParts(inputs + [s]) == EmitParts(inputs) + [EmitSigned(s)]
  {
  }

  lemma GateUnfolds(bp: Blueprint, g: Graph, n: Node, inputs: seq<Signed>)
    requires Find(bp.nodes, n.id) == Some(n) && IsKind(g, n.id, Gate) && InputsOf(bp, g, Outs(g.incoming, n.id), inputs)
    requires inputs != []
    ensures var t := Join(n.nodeType == "logic_and", inputs);
            Unfolds(bp, g, n.id, t) && Wf(t) && Emit(t) == EmitJoin(n.nodeType == "logic_and", EmitParts(inputs))
  {
    var ins := Outs(g.incoming, n.id);
    assert forall k :: 0 <= k < |ins| ==> InputOf(bp, g, ins[k], inputs[k]);
  }

  method EmitGate(bp: Blueprint, g: Graph, n: Node, guards: map<Id, seq<Token>>, ghost trees: map<Id, Guard>)
    returns (text: seq<Token>, ghost t: Guard)
    requires Find(bp.nodes, n.id) == Some(n) && IsKind(g, n.id, Gate) && GateOk(g, n)
    requires forall k :: 0 <= k < |Outs(g.incoming, n.id)| ==> Guarded(bp, g, Outs(g.incoming, n.id)[k].0, guards, trees)
    ensures text == Emit(t) && Wf(t) && Unfolds(bp, g, n.id, t)
    ensures forall u :: Unfolds(bp, g, n.id, u) ==> text == Emit(u)
  {
    var ins := Outs(g.incoming, n.id);
    var parts: seq<seq<Token>> := [];
    ghost var inputs: seq<Signed> := [];
    for k := 0 to |ins|
      invariant parts == EmitParts(inputs) && InputsOf(bp, g, ins[..k], inputs)
    {
      assert Guarded(bp, g, ins[k].0, guards, trees);
      parts := parts + [Negated(guards[ins[k].0], ins[k].1)];
      ghost var input := Signed(trees[ins[k].0], ins[k].1);
      InputsMore(bp, g, ins, k, inputs, input);
      inputs := inputs + [input];
    }
    assert ins[..|ins|] == ins;
    GateUnfolds(bp, g, n, inputs);
    t := Join(n.nodeType == "logic_and", inputs);
    text := EmitJoin(n.nodeType == "logic_and", parts);
    OneText(bp, g, n.id, t);
  }

  lemma ReadyMore(bp: Blueprint, g: Graph, done: seq<Id>, id: Id, values: map<Id, Operand>, guards: map<Id, seq<Token>>,
                  trees: map<Id, Guard>, values': map<Id, Operand>, guards': map<Id, seq<Token>>, trees': map<Id, Guard>)
    requires Ready(bp, g, done, values, guards, trees) && id !in done
    requires forall x :: x in done ==> (x in values ==> x in values' && values'[x] == values[x])
    requires forall x :: x in done ==> (x in guards ==> x in guards' && guards'[x] == guards[x])
    requires forall x :: x in done ==> (x in trees ==> x in trees' && trees'[x] == trees[x])
    requires IsKind(g, id, Source) ==> Valued(bp, id, values')
    requires ProducesGuard(g, id) ==> Guarded(bp, g, id, guards', trees')
    ensures Ready(bp, g, done + [id], values', guards', trees')
  {
    forall x | x in done + [id] && IsKind(g, x, Source) ensures Valued(bp, x, values') {
      assert x in done ==> Valued(bp, x, values);
    }
    forall x | x in done + [id] && ProducesGuard(g, x) ensures Guarded(bp, g, x, guards', trees') {
      assert x in done ==> Guarded(bp, g, x, guards, trees);
    }
  }

  // ---------- the evolvable knobs ----------

  /** A numeric anchor the operator may tune: its wire name, the authored value, the domain. */
  datatype Tunable = Tunable(name: string, default: real, min: real, max: real)

  function Abs(v: real): real {
    if v < 0.0 then 0.0 - v else v
  }

  /** `tunable_domain`: half the magnitude either way, zero widened to one. */
  function Domain(v: real): (real, real) {
    var half := if Abs(v) / 2.0 < 0.000001 then 0.000001 else Abs(v) / 2.0;
    if v == 0.0 then (0.0, 1.0) else (v - half, v + half)
  }

  /** Only numbers become knobs. */
  function Registered(name: string, v: Json): seq<Tunable> {
    if v.JNum? then [Tunable(name, v.n, Domain(v.n).0, Domain(v.n).1)] else []
  }

  function RegisteredParam(n: Node, param: string): seq<Tunable> {
    if param in n.params then Registered(n.id + "_" + param, n.params[param]) else []
  }

  function NodeTunables(g: Graph, n: Node): seq<Tunable> {
    if IsKind(g, n.id, Condition) || (IsKind(g, n.id, Source) && n.nodeType != "data_source") then RegisteredParam(n, "value")
    else []
  }

  function ActionTunables(n: Node): seq<Tunable> {
    RegisteredParam(n, "price") + RegisteredParam(n, "budget_ratio")
  }

  function OrderTunables(bp: Blueprint, g: Graph, order: seq<Id>): seq<Tunable> {
    if order == [] then []
    else
      var last := Find(bp.nodes, order[|order| - 1]);
      OrderTunables(bp, g, order[..|order| - 1]) + if last.Some? then NodeTunables(g, last.value) else []
  }

  /** The table as the generator fills it: node by node in an order of all of them, the action's last. */
  ghost predicate Tabled(bp: Blueprint, g: Graph, action: Node, table: seq<Tunable>) {
    exists order :: ListsNodes(bp, order) && table == OrderTunables(bp, g, order) + ActionTunables(action)
  }

  ghost predicate ListsNodes(bp: Blueprint, order: seq<Id>) {
    Distinct(order) && forall n :: n in order <==> n in Ids(bp.nodes)
  }

  /** One node of the order: its inputs are ready, so it becomes ready. */
  method EmitNode(bp: Blueprint, g: Graph, n: Node, ghost done: seq<Id>,
                  values0: map<Id, Operand>, guards0: map<Id, seq<Token>>, ghost trees0: map<Id, Guard>)
    returns (values: map<Id, Operand>, guards: map<Id, seq<Token>>, ghost trees: map<Id, Guard>, tunables: seq<Tunable>)
    requires NodeChecked(bp, g, n) && n.id !in done && Ready(bp, g, done, values0, guards0, trees0)
    requires forall k :: 0 <= k < |Outs(g.incoming, n.id)| ==> Outs(g.incoming, n.id)[k].0 in done
    ensures Ready(bp, g, done + [n.id], values, guards, trees)
    ensures tunables == NodeTunables(g, n)
  {
    values, guards, trees, tunables := values0, guards0, trees0, [];
    match g.kinds[n.id] {
      case Source =>
        var o := EmitSource(bp, g, n);
        values := values[n.id := o];
        if n.nodeType != "data_source" {
          tunables := Registered(n.id + "_" + "value", n.params["value"]);
        }
      case Condition =>
        if "field" !in n.params {
          ghost var k := OperandsFrom(g, Outs(g.incoming, n.id));
          assert Valued(bp, Outs(g.incoming, n.id)[k].0, values);
        }
        var text, t := EmitCondition(bp, g, n, values);
        tunables := Registered(n.id + "_" + "value", n.params["value"]);
        guards, trees := guards[n.id := text], trees[n.id := t];
      case Gate =>
        assert forall k :: 0 <= k < |Outs(g.incoming, n.id)| ==> Guarded(bp, g, Outs(g.incoming, n.id)[k].0, guards, trees);
        var text, t := EmitGate(bp, g, n, guards, trees);
        guards, trees := guards[n.id := text], trees[n.id := t];
      case Action =>
    }
    ReadyMore(bp, g, done, n.id, values0, guards0, trees0, values, guards, trees);
  }

  /** Along the order, each node is known and has its inputs behind it. */
  ghost predicate Ordered(bp: Blueprint, g: Graph, order: seq<Id>) {
    Distinct(order) && forall i :: 0 <= i < |order| ==> Placed(bp, g, order, i)
  }

  ghost predicate Placed(bp: Blueprint, g: Graph, order: seq<Id>, i: nat)
    requires i < |order|
  {
    && Find(bp.nodes, order[i]).Some? && NodeChecked(bp, g, Find(bp.nodes, order[i]).value)
    && forall k :: 0 <= k < |Outs(g.incoming, order[i])| ==> Outs(g.incoming, order[i])[k].0 in order[..i]
  }

  lemma OrderIsOrdered(bp: Blueprint, g: Graph, order: seq<Id>)
    requires StructureOk(bp, g) && SemanticsOk(bp, g) && Forward(g.outgoing, order) && Distinct(order)
    requires forall n :: n in order <==> n in Ids(bp.nodes)
    ensures Ordered(bp, g, order)
  {
    forall i | 0 <= i < |order| ensures Placed(bp, g, order, i) {
      assert order[i] in order;
      NodeAt(bp, g, order[i]);
      forall k | 0 <= k < |Outs(g.incoming, order[i])| ensures Outs(g.incoming, order[i])[k].0 in order[..i] {
        InputsBefore(bp, g, order, i, k);
      }
    }
  }

  /** All expressions, in topological order. */
  method EmitAll(bp: Blueprint, g: Graph, order: seq<Id>)
    returns (guards: map<Id, seq<Token>>, ghost trees: map<Id, Guard>, tunables: seq<Tunable>)
    requires Ordered(bp, g, order)
    ensures tunables == OrderTunables(bp, g, order)
    ensures forall id :: id in order && ProducesGuard(g, id) ==> Guarded(bp, g, id, guards, trees)
  {
    var values: map<Id, Operand> := map[];
    guards, trees, tunables := map[], map[], [];
    for i := 0 to |order|
      invariant Ready(bp, g, order[..i], values, guards, trees) && tunables == OrderTunables(bp, g, order[..i])
    {
      assert Placed(bp, g, order, i);
      var found;
      values, guards, trees, found := EmitNode(bp, g, Find(bp.nodes, order[i]).value, order[..i], values, guards, trees);
      tunables := tunables + found;
      assert order[..i] + [order[i]] == order[..i + 1];
      assert order[..i + 1][..i] == order[..i];
    }
    assert order[..|order|] == order;
  }

  // ---------- the guard chain ----------

  /** The first guard edge into a node. */
  function NextGuard(g: Graph, ins: seq<(Id, bool)>): Option<(Id, bool)> {
    if ins == [] then None else if !IsKind(g, ins[0].0, Source) then Some(ins[0]) else NextGuard(g, ins[1..])
  }

  function StopAt(start: Id, chain: seq<(Id, bool)>, k: nat): Id
    requires k <= |chain|
  {
    if k == 0 then start else chain[k - 1].0
  }

  /** `chain` lists the guard edges from `start` backwards, nearest first. */
  ghost predicate Trail(g: Graph, start: Id, chain: seq<(Id, bool)>) {
    forall k :: 0 <= k < |chain| ==> Link(g, start, chain, k)
  }

  predicate Link(g: Graph, start: Id, chain: seq<(Id, bool)>, k: nat)
    requires k < |chain|
  {
    GuardInto(g, StopAt(start, chain, k)) == Some(chain[k])
  }

  function GuardInto(g: Graph, id: Id): Option<(Id, bool)> {
    NextGuard(g, Outs(g.incoming, id))
  }

  ghost predicate WholeTrail(g: Graph, start: Id, chain: seq<(Id, bool)>) {
    Trail(g, start, chain) && GuardInto(g, StopAt(start, chain, |chain|)) == None
  }

  lemma {:induction false} NextGuardIn(g: Graph, ins: seq<(Id, bool)>)
    requires NextGuard(g, ins).Some?
    ensures exists k :: 0 <= k < |ins| && ins[k] == NextGuard(g, ins).value
    ensures !IsKind(g, NextGuard(g, ins).value.0, Source)
    decreases |ins|
  {
    if !IsKind(g, ins[0].0, Source) {
      assert ins[0] == NextGuard(g, ins).value;
    } else {
      NextGuardIn(g, ins[1..]);
      var k :| 0 <= k < |ins| - 1 && ins[1..][k] == NextGuard(g, ins).value;
      assert ins[k + 1] == NextGuard(g, ins).value;
    }
  }

  lemma NoActionLeads(bp: Blueprint, g: Graph, src: Id)
    requires StructureOk(bp, g) && src in g.outgoing
    ensures !IsKind(g, src, Action)
  {
    hide HeaderOk, EdgesOk, IndexedOut, IndexedIn, OneWiredAction, ConditionShapeOk, GateOk, ShortPaths, Acyclic;
    if src in g.kinds {
      assert src in Ids(bp.nodes);
      var i :| 0 <= i < |bp.nodes| && Ids(bp.nodes)[i] == src;
      assert ActionOk(g, bp.nodes[i]);
    }
  }

  /** Nothing is drawn out of an action. */
  lemma InputIsNoAction(bp: Blueprint, g: Graph, v: Id, k: nat)
    requires StructureOk(bp, g) && k < |Outs(g.incoming, v)|
    ensures !IsKind(g, Outs(g.incoming, v)[k].0, Action)
  {
    hide HeaderOk, NodesOk, EdgesOk, WiringOk;
    IncomingIsEdge(bp, g, v, k);
    NoActionLeads(bp, g, Outs(g.incoming, v)[k].0);
  }

  /** A guard step leads to a guard producer earlier in the order. */
  ghost predicate LeadsBack(g: Graph, order: seq<Id>) {
    forall i :: 0 <= i < |order| && GuardInto(g, order[i]).Some? ==> StepsBack(g, order, i)
  }

  ghost predicate StepsBack(g: Graph, order: seq<Id>, i: nat)
    requires i < |order| && GuardInto(g, order[i]).Some?
  {
    GuardInto(g, order[i]).value.0 in order[..i] && ProducesGuard(g, GuardInto(g, order[i]).value.0)
  }

  lemma GuardStepAt(bp: Blueprint, g: Graph, order: seq<Id>, i: nat)
    requires Ordered(bp, g, order) && i < |order| && GuardInto(g, order[i]).Some?
    requires forall k :: 0 <= k < |Outs(g.incoming, order[i])| ==> !IsKind(g, Outs(g.incoming, order[i])[k].0, Action)
    ensures StepsBack(g, order, i)
  {
    var ins := Outs(g.incoming, order[i]);
    NextGuardIn(g, ins);
    var k :| 0 <= k < |ins| && ins[k] == NextGuard(g, ins).value;
    assert Placed(bp, g, order, i);
    var j :| 0 <= j < i && order[j] == ins[k].0;
    assert Placed(bp, g, order, j);
  }

  lemma GuardsLeadBack(bp: Blueprint, g: Graph, order: seq<Id>)
    requires StructureOk(bp, g) && Ordered(bp, g, order)
    ensures LeadsBack(g, order)
  {
    forall i | 0 <= i < |order| && GuardInto(g, order[i]).Some? ensures StepsBack(g, order, i) {
      forall k | 0 <= k < |Outs(g.incoming, order[i])| ensures !IsKind(g, Outs(g.incoming, order[i])[k].0, Action) {
        InputIsNoAction(bp, g, order[i], k);
      }
      GuardStepAt(bp, g, order, i);
    }
  }

  type Step = (seq<Token>, bool)

  ghost predicate StepsOf(bp: Blueprint, g: Graph, chain: seq<(Id, bool)>, steps: seq<Step>, trees: map<Id, Guard>) {
    && |steps| == |chain|
    && forall k :: 0 <= k < |chain| ==> StepOf(bp, g, chain[k], steps[k], trees)
  }

  /** One nested `if`: the emitted expression of a guard node, with the polarity of its edge. */
  ghost predicate StepOf(bp: Blueprint, g: Graph, e: (Id, bool), step: Step, trees: map<Id, Guard>) {
    && e.0 in trees && Wf(trees[e.0]) && Unfolds(bp, g, e.0, trees[e.0])
    && step == (Emit(trees[e.0]), e.1)
  }

  /** Walking back from the action; the order bounds the walk. */
  method WalkGuards(bp: Blueprint, g: Graph, ghost order: seq<Id>, start: Id, guards: map<Id, seq<Token>>, ghost trees: map<Id, Guard>)
    returns (steps: seq<Step>, ghost chain: seq<(Id, bool)>)
    requires LeadsBack(g, order) && start in order
    requires forall id :: id in order && ProducesGuard(g, id) ==> Guarded(bp, g, id, guards, trees)
    ensures WholeTrail(g, start, chain) && StepsOf(bp, g, chain, steps, trees)
    ensures forall trail :: WholeTrail(g, start, trail) ==> StepsOf(bp, g, trail, steps, trees)
  {
    steps, chain := [], [];
    var cur := start;
    ghost var pos :| 0 <= pos < |order| && order[pos] == start;
    var next := GuardInto(g, cur);
    while next.Some?
      invariant 0 <= pos < |order| && order[pos] == cur == StopAt(start, chain, |chain|)
      invariant next == GuardInto(g, cur) && Trail(g, start, chain) && StepsOf(bp, g, chain, steps, trees)
      decreases pos
    {
      assert StepsBack(g, order, pos);
      ghost var p :| 0 <= p < pos && order[p] == next.value.0;
      assert Guarded(bp, g, order[p], guards, trees);
      TrailMore(g, start, chain, next.value);
      steps := steps + [(guards[next.value.0], next.value.1)];
      chain := chain + [next.value];
      cur, pos := next.value.0, p;
      next := GuardInto(g, cur);
    }
    forall trail | WholeTrail(g, start, trail) ensures trail == chain {
      OneTrail(g, start, chain, trail);
    }
  }

  lemma {:induction false} TrailsAgree(g: Graph, start: Id, a: seq<(Id, bool)>, b: seq<(Id, bool)>, k: nat)
    requires Trail(g, start, a) && Trail(g, start, b) && k <= |a| && k <= |b|
    ensures a[..k] == b[..k]
  {
    if k > 0 {
      TrailsAgree(g, start, a, b, k - 1);
      assert a[..k - 1][..k - 1] == a[..k - 1];
      assert k > 1 ==> a[k - 2] == a[..k - 1][k - 2] && b[k - 2] == b[..k - 1][k - 2];
      assert Link(g, start, a, k - 1) && Link(g, start, b, k - 1);
      assert a[..k] == a[..k - 1] + [a[k - 1]] && b[..k] == b[..k - 1] + [b[k - 1]];
    }
  }

  lemma LinkAt(g: Graph, start: Id, chain: seq<(Id, bool)>, k: nat)
    requires Trail(g, start, chain) && k < |chain|
    ensures GuardInto(g, StopAt(start, chain, k)) == Some(chain[k])
  {
    assert Link(g, start, chain, k);
  }

  lemma NoLongerTrail(g: Graph, start: Id, a: seq<(Id, bool)>, b: seq<(Id, bool)>)
    requires WholeTrail(g, start, a) && Trail(g, start, b)
    ensures |b| <= |a|
  {
    hide Trail, GuardInto;
    var n := |a|;
    if n < |b| {
      TrailsAgree(g, start, a, b, n);
      assert n > 0 ==> a[n - 1] == a[..n][n - 1] && b[n - 1] == b[..n][n - 1];
      LinkAt(g, start, b, n);
    }
  }

  /** There is one whole trail behind a node. */
  lemma OneTrail(g: Graph, start: Id, a: seq<(Id, bool)>, b: seq<(Id, bool)>)
    requires WholeTrail(g, start, a) && WholeTrail(g, start, b)
    ensures a == b
  {
    NoLongerTrail(g, start, a, b);
    NoLongerTrail(g, start, b, a);
    TrailsAgree(g, start, a, b, |a|);
  }

  lemma TrailMore(g: Graph, start: Id, chain: seq<(Id, bool)>, e: (Id, bool))
    requires Trail(g, start, chain) && GuardInto(g, StopAt(start, chain, |chain|)) == Some(e)
    ensures Trail(g, start, chain + [e])
  {
    forall k | 0 <= k <= |chain| ensures Link(g, start, chain + [e], k) {
      assert StopAt(start, chain + [e], k) == StopAt(start, chain, k);
      assert k < |chain| ==> Link(g, start, chain, k);
    }
  }

  // ---------- the order call ----------

  datatype Call = Call(side: string, price: Option<seq<Token>>, budget: Option<seq<Token>>)

  /** `on_tick`: nested ifs, outermost first, around the order call (none for a hold); and the
  table of knobs saved with it. */
  datatype Program = Program(steps: seq<Step>, call: Option<Call>, tunables: seq<Tunable>)

  predicate PriceField(x: string) {
    x == "tick.price" || x == "tick.mid_price"
  }

  predicate PriceOp(op: string) {
    op == "<=" || op == ">=" || op == "==" || op == "<" || op == ">"
  }

  /** `price_threshold`: the right side of a comparison text that starts with a price field. */
  function PriceThreshold(t: seq<Token>): Option<seq<Token>> {
    if |t| >= 2 && t[0].Name? && PriceField(t[0].name) && t[1].Rel? && PriceOp(t[1].op) then Some(t[2..]) else None
  }

  /** The threshold nearest the action. */
  function NearestPrice(steps: seq<Step>): Option<seq<Token>> {
    if steps == [] then None
    else if PriceThreshold(steps[0].0).Some? then PriceThreshold(steps[0].0)
    else NearestPrice(steps[1..])
  }

  /** A condition the order may take its limit price from. */
  predicate PricesOrder(t: Guard) {
    t.Test? && t.left.Field? && PriceField(t.left.expr) && PriceOp(t.op)
  }

  /** The threshold read back from the text is the value side of a condition on a price field. */
  lemma ThresholdIsConditionValue(t: Guard)
    requires Wf(t)
    ensures PriceThreshold(Emit(t)) ==
            if PricesOrder(t) then Some(Anchor(KnobName(t.id), t.value)) else None
  {
    if t.Test? && t.op != "in" {
      var left, right := EmitOperand(t.left), Anchor(KnobName(t.id), t.value);
      assert Emit(t) == left + [Rel(t.op)] + right;
      if t.left.Field? {
        assert Emit(t)[1] == Rel(t.op);
        assert Emit(t)[2..] == right;
      } else {
        assert left[0] == Emit(t)[0];
      }
    } else {
      assert Emit(t)[0] == LPar;
    }
  }

  /** An inherited price is the value side of the nearest condition on a price field; without one,
  no price is inherited. */
  lemma {:induction false} InheritedPrice(steps: seq<Step>, gs: seq<Signed>) returns (k: nat)
    requires |steps| == |gs| && forall i :: 0 <= i < |gs| ==> steps[i] == (Emit(gs[i].guard), gs[i].when) && Wf(gs[i].guard)
    ensures k <= |gs| && forall i :: 0 <= i < k ==> !PricesOrder(gs[i].guard)
    ensures k == |gs| ==> NearestPrice(steps) == None
    ensures k < |gs| ==> PricesOrder(gs[k].guard) && NearestPrice(steps) == Some(Anchor(KnobName(gs[k].guard.id), gs[k].guard.value))
    decreases |steps|
  {
    hide Emit, Wf;
    if steps == [] {
      k := 0;
    } else {
      ThresholdIsConditionValue(gs[0].guard);
      if PricesOrder(gs[0].guard) {
        k := 0;
      } else {
        k := InheritedPrice(steps[1..], gs[1..]);
        assert forall i :: 0 <= i < k ==> gs[1..][i] == gs[i + 1];
        k := k + 1;
      }
    }
  }

  function OrderCall(action: Node, steps: seq<Step>): Option<Call> {
    if action.nodeType == "action_hold" then None
    else
      Some(Call(if action.nodeType == "action_buy" then "buy" else if action.nodeType == "action_sell" then "sell" else "hold",
                if "price" in action.params then Some(Anchor(action.id + "_price", action.params["price"])) else NearestPrice(steps),
                if "budget_ratio" in action.params then Some(Anchor(action.id + "_budget_ratio", action.params["budget_ratio"])) else None))
  }

  // ---------- the generator ----------

  function Reverse<T>(s: seq<T>): (r: seq<T>)
    ensures |r| == |s| && forall i :: 0 <= i < |s| ==> r[i] == s[|s| - 1 - i]
  {
    if s == [] then [] else Reverse(s[1..]) + [s[0]]
  }

  /** What a program compiled from a blueprint is: around the one wired action, an `if` for every
  guard on the whole trail behind it, each the emitted text of what that node unfolds to. */
  ghost predicate Compiled(bp: Blueprint, g: Graph, p: Program, action: Node, chain: seq<(Id, bool)>, trees: map<Id, Guard>) {
    && action in bp.nodes && WiredAction(g, action)
    && WholeTrail(g, action.id, chain) && StepsOf(bp, g, chain, Reverse(p.steps), trees)
    && p.call == OrderCall(action, Reverse(p.steps))
    && Tabled(bp, g, action, p.tunables)
  }

  method FindAction(bp: Blueprint, g: Graph) returns (action: Node)
    requires OneWiredAction(g, bp.nodes)
    ensures action in bp.nodes && WiredAction(g, action)
  {
    var i := 0;
    while !WiredAction(g, bp.nodes[i])
      invariant i < |bp.nodes| && forall j :: 0 <= j < i ==> !WiredAction(g, bp.nodes[j])
      decreases |bp.nodes| - i
    {
      i := i + 1;
    }
    return bp.nodes[i];
  }

  /** The order of generation, with what the first two stages say along it. */
  method Prepare(bp: Blueprint, g: Graph) returns (order: seq<Id>)
    requires StructureOk(bp, g) && SemanticsOk(bp, g)
    ensures Ordered(bp, g, order) && LeadsBack(g, order) && ListsNodes(bp, order)
  {
    GraphClosed(bp, g);
    var r := TopoOrder(Ids(bp.nodes), g.outgoing);
    order := r.value;
    OrderIsOrdered(bp, g, order);
    GuardsLeadBack(bp, g, order);
  }

  method EmitProgram(bp: Blueprint, g: Graph, order: seq<Id>, action: Node)
    returns (p: Program, ghost chain: seq<(Id, bool)>, ghost trees: map<Id, Guard>)
    requires Ordered(bp, g, order) && LeadsBack(g, order) && ListsNodes(bp, order) && action.id in order
    requires action in bp.nodes && WiredAction(g, action)
    ensures Compiled(bp, g, p, action, chain, trees)
  {
    var guards, tunables;
    guards, trees, tunables := EmitAll(bp, g, order);
    var steps;
    steps, chain := WalkGuards(bp, g, order, action.id, guards, trees);
    p := Program(Reverse(steps), OrderCall(action, steps), tunables + ActionTunables(action));
    assert Reverse(Reverse(steps)) == steps;
  }

  /** The third stage up to its last scan: after the first two it always has a program. */
  method Draft(bp: Blueprint, g: Graph)
    returns (p: Program, ghost action: Node, ghost chain: seq<(Id, bool)>, ghost trees: map<Id, Guard>)
    requires StructureOk(bp, g) && SemanticsOk(bp, g)
    ensures Compiled(bp, g, p, action, chain, trees)
  {
    var order := Prepare(bp, g);
    var act := FindAction(bp, g);
    InIds(bp.nodes, act);
    p, chain, trees := EmitProgram(bp, g, order, act);
    action := act;
  }

  lemma InIds(nodes: seq<Node>, n: Node)
    requires n in nodes
    ensures n.id in Ids(nodes)
  {
    var i :| 0 <= i < |nodes| && nodes[i] == n;
    assert Ids(nodes)[i] == n.id;
  }

  // ---------- what the program does ----------

  /** Running the nested ifs: whether the innermost body is reached; nothing on a Lua error. */
  function Fires(steps: seq<Step>, env: Env, ord: Order): Option<bool> {
    if steps == [] then Some(true)
    else
      match ParseOr(Negated(steps[0].0, steps[0].1))
      case None => None
      case Some((e, rest)) =>
        if rest != [] then None
        else
          match Eval(e, env, ord)
          case None => None
          case Some(v) => if Truthy(v) then Fires(steps[1..], env, ord) else Some(false)
  }

  /** The chain of a program as the and-gate it amounts to, outermost guard first. */
  ghost function ChainGuards(chain: seq<(Id, bool)>, trees: map<Id, Guard>): (r: seq<Signed>)
    requires forall k :: 0 <= k < |chain| ==> chain[k].0 in trees
  {
    Reverse(seq(|chain|, k requires 0 <= k < |chain| => Signed(trees[chain[k].0], chain[k].1)))
  }

  ghost predicate StepsAre(steps: seq<Step>, gs: seq<Signed>) {
    |steps| == |gs| && forall k :: 0 <= k < |gs| ==> steps[k] == (Emit(gs[k].guard), gs[k].when) && Wf(gs[k].guard)
  }

  ghost predicate AllClean(gs: seq<Signed>) {
    forall k :: 0 <= k < |gs| ==> Clean(gs[k].guard)
  }

  ghost predicate AllLoad(steps: seq<Step>) {
    forall k :: 0 <= k < |steps| ==> IsExpression(Negated(steps[k].0, steps[k].1))
  }

  lemma FiresOne(step: Step, s: Signed, env: Env, ord: Order)
    requires step == (Emit(s.guard), s.when) && Wf(s.guard) && Clean(s.guard)
    ensures ParseOr(Negated(step.0, step.1)) == Some((SignedGuardExpr(s), []))
    ensures Eval(SignedGuardExpr(s), env, ord) == AsValue(SignedMeaning(s, env, ord))
  {
    GuardReadsIffClean(s);
    assert EmitSigned(s) == Negated(step.0, step.1);
    GuardMeansItsNode(s.guard, env, ord);
  }

  /** An and-gate asks its first input, and the rest only when that holds. */
  lemma AndGateFirst(gs: seq<Signed>, env: Env, ord: Order)
    requires gs != []
    ensures Meaning(Join(true, gs), env, ord) ==
            if SignedMeaning(gs[0], env, ord) == Some(true) then Meaning(Join(true, gs[1..]), env, ord) else SignedMeaning(gs[0], env, ord)
  {
    var tail := gs[1..];
    var answers := seq(|gs|, i requires 0 <= i < |gs| => SignedMeaning(gs[i], env, ord));
    var later := seq(|tail|, i requires 0 <= i < |tail| => SignedMeaning(tail[i], env, ord));
    assert Meaning(Join(true, gs), env, ord) == Settle(true, answers);
    assert Meaning(Join(true, tail), env, ord) == Settle(true, later);
    assert answers[1..] == later;
  }

  lemma {:induction false} FiresLikeAndGate(steps: seq<Step>, gs: seq<Signed>, env: Env, ord: Order)
    requires StepsAre(steps, gs) && AllClean(gs)
    ensures Fires(steps, env, ord) == Meaning(Join(true, gs), env, ord)
    decreases |steps|
  {
    hide Emit, Wf, Clean, SignedGuardExpr, Eval, ParseOr, SignedMeaning;
    if steps == [] {
      NoGuards(env, ord);
      assert gs == [];
    } else {
      FiresLikeAndGate(steps[1..], gs[1..], env, ord);
      FiresOne(steps[0], gs[0], env, ord);
      AndGateFirst(gs, env, ord);
    }
  }

  lemma NoGuards(env: Env, ord: Order)
    ensures Meaning(Join(true, []), env, ord) == Some(true)
  {
    var gate := Join(true, []);
    assert Meaning(gate, env, ord) == Settle(true, []) by {
      var answers := seq(|gate.inputs|, i requires 0 <= i < |gate.inputs| => SignedMeaning(gate.inputs[i], env, ord));
      assert answers == [];
    }
  }

  lemma LoadIffClean(steps: seq<Step>, gs: seq<Signed>)
    requires StepsAre(steps, gs)
    ensures AllLoad(steps) <==> AllClean(gs)
  {
    forall k | 0 <= k < |gs| ensures IsExpression(Negated(steps[k].0, steps[k].1)) <==> Clean(gs[k].guard) {
      GuardReadsIffClean(gs[k]);
      assert EmitSigned(gs[k]) == Negated(steps[k].0, steps[k].1);
    }
  }

  lemma StepsAreChain(bp: Blueprint, g: Graph, steps: seq<Step>, chain: seq<(Id, bool)>, trees: map<Id, Guard>)
    requires StepsOf(bp, g, chain, Reverse(steps), trees)
    ensures (forall k :: 0 <= k < |chain| ==> chain[k].0 in trees) && StepsAre(steps, ChainGuards(chain, trees))
  {
    var n := |chain|;
    assert forall k :: 0 <= k < n ==> StepOf(bp, g, chain[k], Reverse(steps)[k], trees);
    var gs := ChainGuards(chain, trees);
    forall k | 0 <= k < n ensures steps[k] == (Emit(gs[k].guard), gs[k].when) && Wf(gs[k].guard) {
      assert StepOf(bp, g, chain[n - 1 - k], Reverse(steps)[n - 1 - k], trees);
    }
  }

  /** The whole program: its nested ifs are Lua exactly when no guard on the chain uses `!=`, and
  then the body is reached exactly when every guard on the chain holds with its polarity. */
  lemma ProgramMeansItsChain(bp: Blueprint, g: Graph, p: Program, action: Node, chain: seq<(Id, bool)>, trees: map<Id, Guard>)
    requires Compiled(bp, g, p, action, chain, trees)
    ensures forall k :: 0 <= k < |chain| ==> chain[k].0 in trees
    ensures AllLoad(p.steps) <==> AllClean(ChainGuards(chain, trees))
    ensures AllLoad(p.steps) ==>
              forall env, ord :: Fires(p.steps, env, ord) == Meaning(Join(true, ChainGuards(chain, trees)), env, ord)
  {
    StepsAreChain(bp, g, p.steps, chain, trees);
    var gs := ChainGuards(chain, trees);
    LoadIffClean(p.steps, gs);
    if AllClean(gs) {
      forall env, ord ensures Fires(p.steps, env, ord) == Meaning(Join(true, gs), env, ord) {
        FiresLikeAndGate(p.steps, gs, env, ord);
      }
    }
  }

  // ---------- chains and gates ----------

  /** `q` follows guard edges backwards. */
  ghost predicate GuardPath(g: Graph, q: seq<Id>) {
    q != [] && forall m :: 0 <= m < |q| - 1 ==> GuardEdge(g, q[m + 1], q[m])
  }

  ghost predicate GuardEdge(g: Graph, src: Id, id: Id) {
    !IsKind(g, src, Source) && exists k :: 0 <= k < |Outs(g.incoming, id)| && Outs(g.incoming, id)[k].0 == src
  }

  /** At most one guard is drawn into the node. */
  ghost predicate OneGuard(g: Graph, id: Id) {
    forall a, b :: GuardEdge(g, a, id) && GuardEdge(g, b, id) ==> a == b
  }

  lemma {:induction false} NoGuardMissed(g: Graph, ins: seq<(Id, bool)>, k: nat)
    requires k < |ins| && !IsKind(g, ins[k].0, Source)
    ensures NextGuard(g, ins).Some?
    decreases |ins|
  {
    if IsKind(g, ins[0].0, Source) {
      NoGuardMissed(g, ins[1..], k - 1);
    }
  }

  /** The walk collects every guard that leads to the action. */
  ghost predicate CollectsAll(g: Graph, start: Id, chain: seq<(Id, bool)>) {
    forall q, m: nat :: GuardPath(g, q) && q[0] == start && m < |q| ==> OnTrail(start, chain, q, m)
  }

  predicate OnTrail(start: Id, chain: seq<(Id, bool)>, q: seq<Id>, m: nat)
    requires m < |q|
  {
    m <= |chain| && q[m] == StopAt(start, chain, m)
  }

  /** No stop of the walk takes two guards. */
  ghost predicate PlainChain(g: Graph, start: Id, chain: seq<(Id, bool)>) {
    forall k :: 0 <= k <= |chain| ==> OneGuard(g, StopAt(start, chain, k))
  }

  lemma {:induction false} PathFollowsChain(g: Graph, start: Id, chain: seq<(Id, bool)>, q: seq<Id>, m: nat)
    requires WholeTrail(g, start, chain) && PlainChain(g, start, chain)
    requires GuardPath(g, q) && q[0] == start && m < |q|
    ensures m <= |chain| && q[m] == StopAt(start, chain, m)
  {
    if m > 0 {
      PathFollowsChain(g, start, chain, q, m - 1);
      var id := q[m - 1];
      assert GuardEdge(g, q[m - 1 + 1], id);
      var k :| 0 <= k < |Outs(g.incoming, id)| && Outs(g.incoming, id)[k].0 == q[m];
      NoGuardMissed(g, Outs(g.incoming, id), k);
      assert m - 1 < |chain| && Link(g, start, chain, m - 1);
      NextGuardIn(g, Outs(g.incoming, id));
      assert GuardEdge(g, chain[m - 1].0, id);
      assert OneGuard(g, StopAt(start, chain, m - 1));
    }
  }

  lemma TrailIsPath(g: Graph, start: Id, chain: seq<(Id, bool)>, k: nat) returns (q: seq<Id>)
    requires Trail(g, start, chain) && k <= |chain|
    ensures GuardPath(g, q) && q[0] == start && |q| == k + 1 && q[k] == StopAt(start, chain, k)
  {
    q := seq(k + 1, m requires 0 <= m <= k => StopAt(start, chain, m));
    forall m | 0 <= m < |q| - 1 ensures GuardEdge(g, q[m + 1], q[m]) {
      assert Link(g, start, chain, m);
      NextGuardIn(g, Outs(g.incoming, q[m]));
    }
  }

  /** A second guard into a stop of the walk is dropped: the path that reaches the action through it
  leaves the trail there. */
  lemma SecondGuardDropped(g: Graph, start: Id, chain: seq<(Id, bool)>, k: nat, b: Id) returns (q: seq<Id>)
    requires Trail(g, start, chain) && k <= |chain| && GuardEdge(g, b, StopAt(start, chain, k))
    requires k < |chain| ==> chain[k].0 != b
    ensures GuardPath(g, q) && q[0] == start && |q| == k + 2 && q[k + 1] == b && !OnTrail(start, chain, q, k + 1)
  {
    var before := TrailIsPath(g, start, chain, k);
    q := before + [b];
    forall m | 0 <= m < |q| - 1 ensures GuardEdge(g, q[m + 1], q[m]) {
      assert m < k ==> GuardEdge(g, before[m + 1], before[m]);
    }
  }

  /** The walk collects every guard that leads to the action exactly when no stop takes two. */
  lemma PlainChainIsComplete(g: Graph, start: Id, chain: seq<(Id, bool)>)
    requires WholeTrail(g, start, chain)
    ensures CollectsAll(g, start, chain) <==> PlainChain(g, start, chain)
  {
    if PlainChain(g, start, chain) {
      forall q, m: nat | GuardPath(g, q) && q[0] == start && m < |q| ensures OnTrail(start, chain, q, m) {
        PathFollowsChain(g, start, chain, q, m);
      }
    } else {
      var k :| 0 <= k <= |chain| && !OneGuard(g, StopAt(start, chain, k));
      var a, b :| GuardEdge(g, a, StopAt(start, chain, k)) && GuardEdge(g, b, StopAt(start, chain, k)) && a != b;
      var q := SecondGuardDropped(g, start, chain, k, if k < |chain| && chain[k].0 == b then a else b);
    }
  }

  /** Behind a gate the walk goes on through its first input, and only that one. */
  lemma GatePullsFirstInput(g: Graph, start: Id, chain: seq<(Id, bool)>, k: nat)
    requires WholeTrail(g, start, chain) && k < |chain|
    requires Outs(g.incoming, chain[k].0) != [] && AllGuards(g, Outs(g.incoming, chain[k].0))
    ensures k + 1 < |chain| && chain[k + 1] == Outs(g.incoming, chain[k].0)[0]
  {
    var ins := Outs(g.incoming, chain[k].0);
    assert ProducesGuard(g, ins[0].0);
    assert StopAt(start, chain, k + 1) == chain[k].0;
    if k + 1 < |chain| {
      assert Link(g, start, chain, k + 1);
    }
  }

  /** What a gate and, before it, its first input come to on a chain. */
  function WithFirst(conj: bool, when: bool, first: Option<bool>, gate: Option<bool>): Option<bool> {
    if conj && when then gate
    else if conj then Some(first == Some(true) && gate == Some(true))
    else if when then first
    else Some(false)
  }

  /** So a gate under the action is read together with its first input.  An and-gate is unchanged
  by that, but an or-gate fires exactly when its first input holds, whatever the others say, and
  an or-gate behind an inverted edge never fires. */
  lemma GateWithFirstInput(conj: bool, when: bool, first: Signed, rest: seq<Signed>, env: Env, ord: Order)
    requires SignedMeaning(first, env, ord).Some? && forall i :: 0 <= i < |rest| ==> SignedMeaning(rest[i], env, ord).Some?
    ensures var gate := Signed(Join(conj, [first] + rest), when);
            Meaning(Join(true, [first, gate]), env, ord) ==
            WithFirst(conj, when, SignedMeaning(first, env, ord), SignedMeaning(gate, env, ord))
  {
    var inputs := [first] + rest;
    var gate := Signed(Join(conj, inputs), when);
    var answers := seq(|inputs|, i requires 0 <= i < |inputs| => SignedMeaning(inputs[i], env, ord));
    assert Meaning(gate.guard, env, ord) == Settle(conj, answers) && answers[0] == SignedMeaning(first, env, ord);
    forall i | 0 <= i < |answers| ensures answers[i].Some? {
      assert i > 0 ==> inputs[i] == rest[i - 1];
    }
    GateIsConnective(conj, answers);
    assert answers[0].value != conj ==> Meaning(gate.guard, env, ord) == Some(!conj);
    MeansBoth(first, gate, env, ord);
  }

  lemma MeansBoth(a: Signed, b: Signed, env: Env, ord: Order)
    ensures Meaning(Join(true, [a, b]), env, ord) ==
            if SignedMeaning(a, env, ord) == Some(true) then SignedMeaning(b, env, ord) else SignedMeaning(a, env, ord)
  {
    var both := [a, b];
    var two := seq(2, i requires 0 <= i < 2 => SignedMeaning(both[i], env, ord));
    var last := [SignedMeaning(b, env, ord)];
    assert Meaning(Join(true, both), env, ord) == Settle(true, two);
    assert two[1..] == last && last[1..] == [];
    assert Settle(true, last) == last[0];
  }

  // ---------- a gate in a program ----------

  /** The first answer that is not yes, or the second answer. */
  function Then(a: Option<bool>, b: Option<bool>): Option<bool> {
    if a == Some(true) then b else a
  }

  lemma {:induction false} AndGateParts(a: seq<Signed>, b: seq<Signed>, env: Env, ord: Order)
    ensures Meaning(Join(true, a + b), env, ord) == Then(Meaning(Join(true, a), env, ord), Meaning(Join(true, b), env, ord))
    decreases |a|
  {
    hide SignedMeaning, Meaning;
    if a == [] {
      assert a + b == b;
      NoGuards(env, ord);
    } else {
      assert (a + b)[1..] == a[1..] + b;
      AndGateParts(a[1..], b, env, ord);
      AndGateFirst(a + b, env, ord);
      AndGateFirst(a, env, ord);
    }
  }

  lemma GateUnfolded(bp: Blueprint, g: Graph, chain: seq<(Id, bool)>, steps: seq<Step>, trees: map<Id, Guard>, k: nat)
    requires StepsOf(bp, g, chain, steps, trees) && k + 1 < |chain| && chain[k].0 in trees && chain[k + 1].0 in trees
    requires IsKind(g, chain[k].0, Gate) && Outs(g.incoming, chain[k].0) != [] && chain[k + 1] == Outs(g.incoming, chain[k].0)[0]
    ensures var t := trees[chain[k].0];
            && t.Join? && Find(bp.nodes, chain[k].0).Some? && t.conj == (Find(bp.nodes, chain[k].0).value.nodeType == "logic_and")
            && t.inputs != [] && t.inputs[0] == Signed(trees[chain[k + 1].0], chain[k + 1].1)
  {
    assert StepOf(bp, g, chain[k], steps[k], trees) && StepOf(bp, g, chain[k + 1], steps[k + 1], trees);
    UnfoldsOnce(bp, g, chain[k + 1].0, trees[chain[k + 1].0], trees[chain[k].0].inputs[0].guard);
  }

  /** A gate on the trail of an accepted blueprint has its first input right behind it. */
  lemma GateOnTrail(bp: Blueprint, g: Graph, action: Node, chain: seq<(Id, bool)>, k: nat)
    requires StructureOk(bp, g) && WholeTrail(g, action.id, chain) && k < |chain| && IsKind(g, chain[k].0, Gate)
    ensures Outs(g.incoming, chain[k].0) != []
    ensures k + 1 < |chain| && chain[k + 1] == Outs(g.incoming, chain[k].0)[0]
  {
    hide HeaderOk, NodesOk, EdgesOk, OneWiredAction, ShortPaths, Acyclic, IndexedOut, IndexedIn, WholeTrail, ActionOk, ConditionShapeOk;
    var id := chain[k].0;
    assert id in Ids(bp.nodes);
    var i :| 0 <= i < |bp.nodes| && Ids(bp.nodes)[i] == id;
    assert GateOk(g, bp.nodes[i]);
    GatePullsFirstInput(g, action.id, chain, k);
  }

  /** A gate anywhere on the chain of an accepted blueprint, in the compiled program: the nested ifs
  around it, then the gate together with its first input, then the nested ifs inside.  So an or-gate
  there adds nothing to its first input, whatever its other inputs say, and behind an inverted edge
  it blocks the order for good. */
  lemma ProgramWithGate(bp: Blueprint, g: Graph, p: Program, action: Node, chain: seq<(Id, bool)>, trees: map<Id, Guard>,
                        k: nat, env: Env, ord: Order)
    requires StructureOk(bp, g) && Compiled(bp, g, p, action, chain, trees) && AllLoad(p.steps)
    requires k < |chain| && IsKind(g, chain[k].0, Gate)
    requires chain[k].0 in trees && trees[chain[k].0].Join? &&
             forall i :: 0 <= i < |trees[chain[k].0].inputs| ==> SignedMeaning(trees[chain[k].0].inputs[i], env, ord).Some?
    ensures k + 1 < |chain| && chain[k + 1].0 in trees && forall i :: 0 <= i < |chain| ==> chain[i].0 in trees
    ensures var gs, at := ChainGuards(chain, trees), |chain| - 2 - k;
            var gate, first := Signed(trees[chain[k].0], chain[k].1), Signed(trees[chain[k + 1].0], chain[k + 1].1);
            |gs| == |chain| &&
            Fires(p.steps, env, ord) ==
            Then(Meaning(Join(true, gs[..at]), env, ord),
                 Then(WithFirst(gate.guard.conj, gate.when, SignedMeaning(first, env, ord), SignedMeaning(gate, env, ord)),
                      Meaning(Join(true, gs[at + 2..]), env, ord)))
  {
    hide StructureOk, Tabled, WholeTrail, AllLoad, Fires, AllClean, SignedMeaning, Meaning;
    StepsAreChain(bp, g, p.steps, chain, trees);
    GateOnTrail(bp, g, action, chain, k);
    GateUnfolded(bp, g, chain, Reverse(p.steps), trees, k);
    ProgramMeansItsChain(bp, g, p, action, chain, trees);
    PairOnChain(chain, trees, k, env, ord);
  }

  lemma PairOnChain(chain: seq<(Id, bool)>, trees: map<Id, Guard>, k: nat, env: Env, ord: Order)
    requires k + 1 < |chain| && forall i :: 0 <= i < |chain| ==> chain[i].0 in trees
    requires var t := trees[chain[k].0];
             && t.Join? && t.inputs != [] && t.inputs[0] == Signed(trees[chain[k + 1].0], chain[k + 1].1)
             && forall i :: 0 <= i < |t.inputs| ==> SignedMeaning(t.inputs[i], env, ord).Some?
    ensures var gs, at := ChainGuards(chain, trees), |chain| - 2 - k;
            var gate, first := Signed(trees[chain[k].0], chain[k].1), Signed(trees[chain[k + 1].0], chain[k + 1].1);
            |gs| == |chain| &&
            Meaning(Join(true, gs), env, ord) ==
            Then(Meaning(Join(true, gs[..at]), env, ord),
                 Then(WithFirst(gate.guard.conj, gate.when, SignedMeaning(first, env, ord), SignedMeaning(gate, env, ord)),
                      Meaning(Join(true, gs[at + 2..]), env, ord)))
  {
    hide SignedMeaning, Meaning;
    var gs, at := ChainGuards(chain, trees), |chain| - 2 - k;
    var t := trees[chain[k].0];
    var gate, first, rest := Signed(t, chain[k].1), t.inputs[0], t.inputs[1..];
    assert t == Join(t.conj, [first] + rest);
    GateWithFirstInput(t.conj, chain[k].1, first, rest, env, ord);
    AndGateParts(gs[at..at + 2], gs[at + 2..], env, ord);
    AndGateParts(gs[..at], gs[at..], env, ord);
    assert gs[at..at + 2] == [first, gate];
    assert gs[at..at + 2] + gs[at + 2..] == gs[at..] && gs[..at] + gs[at..] == gs;
  }
}
