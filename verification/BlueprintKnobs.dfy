/** The evolution bridge of `blueprint.rs`: which knobs the emitted text reads, against the table of
knobs that is saved with it, name by name and default by default. */
module BlueprintKnobs {
  import opened Wrappers
  import opened BlueprintGraph
  import opened BlueprintStructure
  import opened BlueprintCodegen
  import opened GuardCode
  import opened Lua

  /** A wire name and the authored value behind it. */
  type Knob = (string, real)

  // ---------- knobs in a text ----------

  /** The call that serves a knob, with the authored value as fallback. */
  function Bridge(k: Knob): seq<Token> {
    Anchor(k.0, JNum(k.1))
  }

  predicate StandsAt(t: seq<Token>, i: nat, part: seq<Token>) {
    i + |part| <= |t| && t[i..i + |part|] == part
  }

  ghost predicate Reads(t: seq<Token>, k: Knob) {
    exists i: nat :: StandsAt(t, i, Bridge(k))
  }

  /** Every mention of the bridge at `i` is a whole call for one of `ks`. */
  ghost predicate CallsOne(t: seq<Token>, i: nat, ks: set<Knob>)
    requires i < |t|
  {
    t[i] == Name("__param") ==> exists k :: k in ks && StandsAt(t, i, Bridge(k))
  }

  /** The bridge is mentioned in whole calls for one of `ks` only. */
  ghost predicate CallsOnly(t: seq<Token>, ks: set<Knob>) {
    forall i :: 0 <= i < |t| ==> CallsOne(t, i, ks)
  }

  /** The text reads the knobs `ks`, and mentions the bridge in no other way. */
  ghost predicate Serves(t: seq<Token>, ks: set<Knob>) {
    (forall k :: k in ks ==> Reads(t, k)) && CallsOnly(t, ks)
  }

  lemma CallsWider(t: seq<Token>, ks: set<Knob>, more: set<Knob>)
    requires CallsOnly(t, ks) && ks <= more
    ensures CallsOnly(t, more)
  {
    forall i | 0 <= i < |t| ensures CallsOne(t, i, more) {
      assert CallsOne(t, i, ks);
    }
  }

  lemma BridgeShape(k: Knob)
    ensures |Bridge(k)| > 4 && Bridge(k)[0] == Name("__param") && Bridge(k)[2] == Text(k.0)
    ensures Bridge(k)[4..] == Literal(JNum(k.1)) + [RPar]
  {
    var head := [Name("__param"), LPar, Text(k.0), Comma];
    assert Bridge(k) == head + (Literal(JNum(k.1)) + [RPar]);
  }

  lemma BridgeOnce(t: seq<Token>, i: nat, j: Knob, k: Knob)
    requires StandsAt(t, i, Bridge(j)) && StandsAt(t, i, Bridge(k))
    ensures j == k
  {
    BridgeTokens(t, i, j);
    BridgeTokens(t, i, k);
  }

  /** Name and value, read off the tokens. */
  lemma BridgeTokens(t: seq<Token>, i: nat, k: Knob)
    requires StandsAt(t, i, Bridge(k))
    ensures i + 5 < |t| && t[i + 2] == Text(k.0)
    ensures if k.1 < 0.0 then t[i + 4] == Minus && t[i + 5] == Number(0.0 - k.1) else t[i + 4] == Number(k.1)
  {
    var part := Bridge(k);
    BridgeShape(k);
    assert |part| > 5 && part[4] == part[4..][0] && part[5] == part[4..][1];
    assert t[i..i + |part|][2] == t[i + 2] && t[i..i + |part|][4] == t[i + 4] && t[i..i + |part|][5] == t[i + 5];
  }

  /** What a text serves is what it reads. */
  lemma ServesExactly(t: seq<Token>, ks: set<Knob>, k: Knob)
    requires Serves(t, ks)
    ensures Reads(t, k) <==> k in ks
  {
    if Reads(t, k) {
      var i: nat :| StandsAt(t, i, Bridge(k));
      BridgeShape(k);
      assert t[i] == Bridge(k)[0];
      assert CallsOne(t, i, ks);
      var j :| j in ks && StandsAt(t, i, Bridge(j));
      BridgeOnce(t, i, j, k);
    }
  }

  lemma ServesNone(t: seq<Token>)
    requires forall i :: 0 <= i < |t| ==> t[i] != Name("__param")
    ensures Serves(t, {})
  {
  }

  lemma ServesBoth(a: seq<Token>, ka: set<Knob>, b: seq<Token>, kb: set<Knob>)
    requires Serves(a, ka) && Serves(b, kb)
    ensures Serves(a + b, ka + kb)
  {
    hide StandsAt, Bridge;
    forall k | k in ka + kb ensures Reads(a + b, k) {
      if k in ka {
        var i: nat :| StandsAt(a, i, Bridge(k));
        StandsLeft(a, b, i, Bridge(k));
      } else {
        var i: nat :| StandsAt(b, i, Bridge(k));
        StandsRight(a, b, i, Bridge(k));
      }
    }
    forall i | 0 <= i < |a + b| ensures CallsOne(a + b, i, ka + kb) {
      if i < |a| {
        assert CallsOne(a, i, ka);
        CallsLeft(a, ka, b, kb, i);
      } else {
        assert CallsOne(b, i - |a|, kb);
        CallsRight(a, ka, b, kb, i - |a|);
      }
    }
  }

  lemma CallsLeft(a: seq<Token>, ka: set<Knob>, b: seq<Token>, kb: set<Knob>, i: nat)
    requires i < |a| && CallsOne(a, i, ka)
    ensures CallsOne(a + b, i, ka + kb)
  {
    if a[i] == Name("__param") {
      var k :| k in ka && StandsAt(a, i, Bridge(k));
      StandsLeft(a, b, i, Bridge(k));
    }
  }

  lemma CallsRight(a: seq<Token>, ka: set<Knob>, b: seq<Token>, kb: set<Knob>, i: nat)
    requires i < |b| && CallsOne(b, i, kb)
    ensures CallsOne(a + b, |a| + i, ka + kb)
  {
    if b[i] == Name("__param") {
      var k :| k in kb && StandsAt(b, i, Bridge(k));
      StandsRight(a, b, i, Bridge(k));
    }
  }

  lemma StandsLeft(a: seq<Token>, b: seq<Token>, i: nat, part: seq<Token>)
    requires StandsAt(a, i, part)
    ensures StandsAt(a + b, i, part)
  {
    assert (a + b)[i..i + |part|] == a[i..i + |part|];
  }

  lemma StandsRight(a: seq<Token>, b: seq<Token>, i: nat, part: seq<Token>)
    requires StandsAt(b, i, part)
    ensures StandsAt(a + b, |a| + i, part)
  {
    assert (a + b)[|a| + i..|a| + i + |part|] == b[i..i + |part|];
  }

  /** Brackets and the like around a text. */
  lemma ServesWrapped(before: seq<Token>, t: seq<Token>, after: seq<Token>, ks: set<Knob>)
    requires Serves(t, ks)
    requires forall i :: 0 <= i < |before| ==> before[i] != Name("__param")
    requires forall i :: 0 <= i < |after| ==> after[i] != Name("__param")
    ensures Serves(before + t + after, ks)
  {
    ServesNone(before);
    ServesNone(after);
    ServesBoth(before, {}, t, ks);
    ServesBoth(before + t, {} + ks, after, {});
    assert {} + ks + {} == ks;
  }

  function Union(kss: seq<set<Knob>>): set<Knob> {
    if kss == [] then {} else kss[0] + Union(kss[1..])
  }

  lemma {:induction false} InUnion(kss: seq<set<Knob>>, k: Knob)
    ensures k in Union(kss) <==> exists i :: 0 <= i < |kss| && k in kss[i]
    decreases |kss|
  {
    if kss != [] {
      InUnion(kss[1..], k);
      if k in Union(kss[1..]) {
        var i :| 0 <= i < |kss| - 1 && k in kss[1..][i];
        assert k in kss[i + 1];
      }
      if i :| 0 <= i < |kss| && k in kss[i] {
        assert i > 0 ==> k in kss[1..][i - 1];
      }
    }
  }

  ghost predicate AllServe(parts: seq<seq<Token>>, kss: seq<set<Knob>>) {
    |parts| == |kss| && forall i :: 0 <= i < |parts| ==> Serves(parts[i], kss[i])
  }

  lemma {:induction false} TailServes(joiner: Token, parts: seq<seq<Token>>, kss: seq<set<Knob>>)
    requires AllServe(parts, kss) && joiner != Name("__param")
    ensures Serves(JoinTail(joiner, parts), Union(kss))
    decreases |parts|
  {
    if parts == [] {
      ServesNone([]);
    } else {
      TailServes(joiner, parts[1..], kss[1..]);
      ServesWrapped([joiner], parts[0], [], kss[0]);
      assert [joiner] + parts[0] + [] == [joiner] + parts[0];
      ServesBoth([joiner] + parts[0], kss[0], JoinTail(joiner, parts[1..]), Union(kss[1..]));
    }
  }

  lemma JoinServes(conj: bool, parts: seq<seq<Token>>, kss: seq<set<Knob>>)
    requires AllServe(parts, kss)
    ensures Serves(EmitJoin(conj, parts), Union(kss))
  {
    if parts == [] {
      ServesNone([]);
    } else {
      TailServes(Joiner(conj), parts[1..], kss[1..]);
      ServesBoth(parts[0], kss[0], JoinTail(Joiner(conj), parts[1..]), Union(kss[1..]));
    }
    ServesWrapped([LPar], JoinParts(Joiner(conj), parts), [RPar], Union(kss));
  }

  lemma NegatedServes(t: seq<Token>, when: bool, ks: set<Knob>)
    requires Serves(t, ks)
    ensures Serves(Negated(t, when), ks)
  {
    if !when {
      ServesWrapped([Not, LPar], t, [RPar], ks);
    }
  }

  // ---------- knobs in a guard ----------

  function AnchorKnobs(name: string, v: Json): set<Knob> {
    if v.JNum? then {(name, v.n)} else {}
  }

  function OperandKnobs(o: Operand): set<Knob> {
    if o.Knob? then AnchorKnobs(KnobName(o.id), o.value) else {}
  }

  /** Every number drawn below a guard, with its wire name. */
  function Knobs(g: Guard): set<Knob> {
    match g
    case Test(id, left, _, value) => OperandKnobs(left) + AnchorKnobs(KnobName(id), value)
    case Join(_, inputs) => Union(seq(|inputs|, i requires 0 <= i < |inputs| => Knobs(inputs[i].guard)))
  }

  function InputKnobs(inputs: seq<Signed>): seq<set<Knob>> {
    seq(|inputs|, i requires 0 <= i < |inputs| => Knobs(inputs[i].guard))
  }

  /** No field is called like the bridge. */
  predicate Plain(g: Guard) {
    match g
    case Test(_, left, _, _) => left.Field? ==> left.expr != "__param"
    case Join(_, inputs) => forall i :: 0 <= i < |inputs| ==> Plain(inputs[i].guard)
  }

  lemma AnchorServes(name: string, v: Json)
    ensures Serves(Anchor(name, v), AnchorKnobs(name, v))
  {
    var t := Anchor(name, v);
    if v.JNum? {
      var k: Knob := (name, v.n);
      assert t[0..0 + |Bridge(k)|] == Bridge(k);
      assert StandsAt(t, 0, Bridge(k));
      var head := [Name("__param"), LPar, Text(name), Comma];
      assert t == head + (Literal(v) + [RPar]);
      forall i | 0 <= i < |t| ensures CallsOne(t, i, {k}) {
      }
    }
  }

  lemma OperandServes(o: Operand)
    requires o.Field? ==> o.expr != "__param"
    ensures Serves(EmitOperand(o), OperandKnobs(o))
  {
    if o.Knob? {
      AnchorServes(KnobName(o.id), o.value);
    }
  }

  lemma {:induction false} UnionOfCopies(ks: set<Knob>, kss: seq<set<Knob>>)
    requires kss != [] && forall i :: 0 <= i < |kss| ==> kss[i] == ks
    ensures Union(kss) == ks
    decreases |kss|
  {
    if |kss| > 1 {
      UnionOfCopies(ks, kss[1..]);
    }
  }

  lemma InServes(left: Operand, items: seq<Json>)
    requires items != [] && (left.Field? ==> left.expr != "__param")
    ensures Serves(EmitJoin(false, Arms(EmitOperand(left), items)), OperandKnobs(left))
  {
    hide Serves, EmitOperand;
    var arms := Arms(EmitOperand(left), items);
    var kss := seq(|arms|, i requires 0 <= i < |arms| => OperandKnobs(left));
    OperandServes(left);
    forall i | 0 <= i < |arms| ensures Serves(arms[i], kss[i]) {
      var tail := [Rel("==")] + Literal(items[i]);
      ServesWrapped([], EmitOperand(left), tail, OperandKnobs(left));
      assert arms[i] == [] + EmitOperand(left) + tail;
    }
    JoinServes(false, arms, kss);
    UnionOfCopies(OperandKnobs(left), kss);
  }

  lemma RelationServes(left: Operand, op: string, name: string, value: Json)
    requires left.Field? ==> left.expr != "__param"
    ensures Serves(EmitOperand(left) + [Rel(op)] + Anchor(name, value), OperandKnobs(left) + AnchorKnobs(name, value))
  {
    hide Serves, EmitOperand, Anchor;
    var t := EmitOperand(left);
    OperandServes(left);
    AnchorServes(name, value);
    ServesWrapped([], t, [Rel(op)], OperandKnobs(left));
    assert [] + t + [Rel(op)] == t + [Rel(op)];
    ServesBoth(t + [Rel(op)], OperandKnobs(left), Anchor(name, value), AnchorKnobs(name, value));
  }

  lemma TestServes(g: Guard)
    requires g.Test? && Wf(g) && Plain(g)
    ensures Serves(Emit(g), Knobs(g))
  {
    hide Serves, EmitOperand, Anchor;
    if g.op == "in" {
      InServes(g.left, g.value.items);
      assert Emit(g) == EmitJoin(false, Arms(EmitOperand(g.left), g.value.items));
      assert Knobs(g) == OperandKnobs(g.left);
    } else {
      RelationServes(g.left, g.op, KnobName(g.id), g.value);
    }
  }

  /** The text of a guard reads every number drawn below it, each under its own name and with its
  authored value as fallback, and mentions the bridge nowhere else. */
  lemma {:induction false} GuardServes(g: Guard)
    requires Wf(g) && Plain(g)
    ensures Serves(Emit(g), Knobs(g))
    decreases g
  {
    match g
    case Test(_, _, _, _) => TestServes(g);
    case Join(conj, inputs) =>
      var parts := EmitParts(inputs);
      forall i | 0 <= i < |inputs| ensures Serves(parts[i], InputKnobs(inputs)[i]) {
        GuardServes(inputs[i].guard);
        NegatedServes(Emit(inputs[i].guard), inputs[i].when, Knobs(inputs[i].guard));
        assert parts[i] == EmitSigned(inputs[i]);
      }
      JoinServes(conj, parts, InputKnobs(inputs));
      assert Knobs(g) == Union(InputKnobs(inputs));
  }

  // ---------- knobs of a blueprint ----------

  predicate NumericNode(g: Graph, n: Node) {
    NodeTunables(g, n) != []
  }

  function NodeKnob(n: Node): Knob
    requires "value" in n.params && n.params["value"].JNum?
  {
    (KnobName(n.id), n.params["value"].n)
  }

  /** `k` is the value of a constant or condition drawn somewhere. */
  ghost predicate Drawn(bp: Blueprint, g: Graph, k: Knob) {
    exists n :: n in bp.nodes && NumericNode(g, n) && k == NodeKnob(n)
  }

  function ParamKnobs(n: Node, param: string): set<Knob> {
    if param in n.params then AnchorKnobs(n.id + "_" + param, n.params[param]) else {}
  }

  function ActionKnobs(n: Node): set<Knob> {
    ParamKnobs(n, "price") + ParamKnobs(n, "budget_ratio")
  }

  predicate IsParam(p: string) {
    p == "value" || p == "price" || p == "budget_ratio"
  }

  /** A wire name says which parameter of which node it is. */
  lemma NamesDecode(a: string, p: string, b: string, q: string)
    requires IsParam(p) && IsParam(q) && a + "_" + p == b + "_" + q
    ensures a == b && p == q
  {
    var s := a + "_" + p;
    assert s[|s| - 1] == p[|p| - 1] == q[|q| - 1] && s[|s| - 2] == p[|p| - 2] == q[|q| - 2];
    assert |p| == |q|;
    assert a == s[..|s| - |p| - 1] == b;
  }

  lemma ValueName(id: string)
    ensures KnobName(id) == id + "_" + "value"
  {
  }

  // ---------- the table ----------

  function Exported(table: seq<Tunable>): set<Knob> {
    set t | t in table :: (t.name, t.default)
  }

  lemma ExportedBoth(a: seq<Tunable>, b: seq<Tunable>)
    ensures Exported(a + b) == Exported(a) + Exported(b)
  {
    assert forall t :: t in a + b <==> t in a || t in b;
  }

  predicate NamesDistinct(table: seq<Tunable>) {
    forall i, j :: 0 <= i < j < |table| ==> table[i].name != table[j].name
  }

  /** The value of each listed node, in order. */
  ghost predicate ListsValues(bp: Blueprint, g: Graph, order: seq<Id>, table: seq<Tunable>) {
    forall i :: 0 <= i < |table| ==> ListsValue(bp, g, order, table[i])
  }

  ghost predicate ListsValue(bp: Blueprint, g: Graph, order: seq<Id>, t: Tunable) {
    exists id :: id in order && ValueOf(bp, g, id, t)
  }

  ghost predicate ValueOf(bp: Blueprint, g: Graph, id: Id, t: Tunable) {
    && t.name == id + "_" + "value" && Banded(t)
    && Find(bp.nodes, id).Some? && NodeTunables(g, Find(bp.nodes, id).value) == [t]
  }

  /** A last node's values after those of the nodes before it. */
  lemma ListsMore(bp: Blueprint, g: Graph, init: seq<Id>, id: Id, before: seq<Tunable>, last: seq<Tunable>)
    requires ListsValues(bp, g, init, before) && forall t :: t in last ==> ValueOf(bp, g, id, t)
    ensures ListsValues(bp, g, init + [id], before + last)
  {
    hide ValueOf;
    var order, table := init + [id], before + last;
    forall i | 0 <= i < |table| ensures ListsValue(bp, g, order, table[i]) {
      if i < |before| {
        assert ListsValue(bp, g, init, before[i]);
        var x :| x in init && ValueOf(bp, g, x, table[i]);
        assert x in order;
      } else {
        assert table[i] == last[i - |before|];
        assert id in order && ValueOf(bp, g, id, table[i]);
      }
    }
  }

  lemma JoinedNames(a: seq<Tunable>, b: seq<Tunable>)
    requires NamesDistinct(a) && NamesDistinct(b)
    requires forall i, j :: 0 <= i < |a| && 0 <= j < |b| ==> a[i].name != b[j].name
    ensures NamesDistinct(a + b)
  {
  }

  lemma NamesMore(bp: Blueprint, g: Graph, init: seq<Id>, id: Id, before: seq<Tunable>, last: seq<Tunable>)
    requires ListsValues(bp, g, init, before) && id !in init && forall t :: t in last ==> ValueOf(bp, g, id, t)
    requires NamesDistinct(before) && |last| <= 1
    ensures NamesDistinct(before + last)
  {
    forall i, j | 0 <= i < |before| && 0 <= j < |last| ensures before[i].name != last[j].name {
      assert ListsValue(bp, g, init, before[i]);
      var x :| x in init && ValueOf(bp, g, x, before[i]);
      assert last[j] in last;
      if before[i].name == last[j].name {
        NamesDecode(x, "value", id, "value");
      }
    }
    JoinedNames(before, last);
  }

  lemma NodeValues(bp: Blueprint, g: Graph, id: Id) returns (ts: seq<Tunable>)
    ensures ts == (if Find(bp.nodes, id).Some? then NodeTunables(g, Find(bp.nodes, id).value) else []) && |ts| <= 1
    ensures forall t :: t in ts <==> ValueOf(bp, g, id, t)
  {
    ts := if Find(bp.nodes, id).Some? then NodeTunables(g, Find(bp.nodes, id).value) else [];
  }

  lemma NothingListed(bp: Blueprint, g: Graph)
    ensures ListsValues(bp, g, [], []) && NamesDistinct([])
  {
  }

  /** In whatever order the nodes come, each lists its own number and all names differ. */
  lemma {:induction false} OrderTable(bp: Blueprint, g: Graph, order: seq<Id>)
    requires Distinct(order)
    ensures var table := OrderTunables(bp, g, order);
            && ListsValues(bp, g, order, table) && NamesDistinct(table)
            && forall id, t :: id in order && ValueOf(bp, g, id, t) ==> t in table
    decreases |order|
  {
    hide ValueOf, NodeTunables, NamesDistinct, ListsValues;
    if order == [] {
      NothingListed(bp, g);
    } else {
      var n := |order| - 1;
      var init, id := order[..n], order[n];
      OrderTable(bp, g, init);
      var before := OrderTunables(bp, g, init);
      var last := NodeValues(bp, g, id);
      assert OrderTunables(bp, g, order) == before + last && order == init + [id];
      ListsMore(bp, g, init, id, before, last);
      NamesMore(bp, g, init, id, before, last);
    }
  }

  lemma FindNode(bp: Blueprint, n: Node)
    requires NodesOk(bp.nodes) && n in bp.nodes
    ensures Find(bp.nodes, n.id) == Some(n) && n.id in Ids(bp.nodes)
  {
    InIds(bp.nodes, n);
    var m := Find(bp.nodes, n.id).value;
    var i, j :| 0 <= i < |bp.nodes| && 0 <= j < |bp.nodes| && bp.nodes[i] == n && bp.nodes[j] == m;
    assert i == j;
  }

  lemma ValueIsDrawn(bp: Blueprint, g: Graph, id: Id, t: Tunable)
    requires ValueOf(bp, g, id, t)
    ensures Drawn(bp, g, (t.name, t.default))
  {
    var n := Find(bp.nodes, id).value;
    ValueName(id);
    assert NumericNode(g, n) && (t.name, t.default) == NodeKnob(n);
  }

  lemma NumberIsValue(bp: Blueprint, g: Graph, n: Node) returns (t: Tunable)
    requires NodesOk(bp.nodes) && n in bp.nodes && NumericNode(g, n)
    ensures ValueOf(bp, g, n.id, t) && (t.name, t.default) == NodeKnob(n) && n.id in Ids(bp.nodes)
  {
    FindNode(bp, n);
    ValueName(n.id);
    t := NodeTunables(g, n)[0];
  }

  /** What the generator lists for the nodes, in any order of all of them. */
  lemma OrderExports(bp: Blueprint, g: Graph, order: seq<Id>, k: Knob)
    requires NodesOk(bp.nodes) && ListsNodes(bp, order)
    ensures k in Exported(OrderTunables(bp, g, order)) <==> Drawn(bp, g, k)
  {
    hide ValueOf, NodesOk, OrderTunables, NamesDistinct;
    var table := OrderTunables(bp, g, order);
    OrderTable(bp, g, order);
    if k in Exported(table) {
      var i :| 0 <= i < |table| && k == (table[i].name, table[i].default);
      assert ListsValue(bp, g, order, table[i]);
      var id :| id in order && ValueOf(bp, g, id, table[i]);
      ValueIsDrawn(bp, g, id, table[i]);
    }
    if Drawn(bp, g, k) {
      var n :| n in bp.nodes && NumericNode(g, n) && k == NodeKnob(n);
      var t := NumberIsValue(bp, g, n);
      assert t in table;
    }
  }

  /** A knob's domain: from zero to one around zero, else as wide as the value is large, but at least two
  millionths, with the value in its middle. */
  predicate Banded(t: Tunable) {
    var width := t.max - t.min;
    && t.min <= t.default <= t.max
    && if t.default == 0.0 then t.min == 0.0 && t.max == 1.0
       else
         && t.default - t.min == t.max - t.default
         && width >= t.default && width >= 0.0 - t.default && width >= 0.000002
         && (width == t.default || width == 0.0 - t.default || width == 0.000002)
  }

  lemma ActionExports(n: Node, k: Knob)
    ensures k in Exported(ActionTunables(n)) <==> k in ActionKnobs(n)
    ensures NamesDistinct(ActionTunables(n))
    ensures forall t :: t in ActionTunables(n) ==> Banded(t)
    ensures forall t :: t in ActionTunables(n) ==> t.name == n.id + "_" + "price" || t.name == n.id + "_" + "budget_ratio"
  {
    var a, b := RegisteredParam(n, "price"), RegisteredParam(n, "budget_ratio");
    ExportedBoth(a, b);
    ParamExports(n, "price", k);
    ParamExports(n, "budget_ratio", k);
    if n.id + "_" + "price" == n.id + "_" + "budget_ratio" {
      NamesDecode(n.id, "price", n.id, "budget_ratio");
    }
  }

  lemma ParamExports(n: Node, param: string, k: Knob)
    ensures k in Exported(RegisteredParam(n, param)) <==> k in ParamKnobs(n, param)
  {
    var ts := RegisteredParam(n, param);
    if ts != [] {
      assert ts[0] in ts;
    }
  }

  /** No value is called like a parameter of the action. */
  lemma ValuesApart(bp: Blueprint, g: Graph, id: Id, t: Tunable, action: Node, u: Tunable)
    requires ValueOf(bp, g, id, t) && u in ActionTunables(action)
    ensures t.name != u.name && Banded(t)
  {
    ActionExports(action, ("", 0.0));
    if t.name == action.id + "_" + "price" {
      NamesDecode(id, "value", action.id, "price");
    } else if t.name == action.id + "_" + "budget_ratio" {
      NamesDecode(id, "value", action.id, "budget_ratio");
    }
  }

  lemma ListedDomain(bp: Blueprint, g: Graph, order: seq<Id>, t: Tunable)
    requires ListsValue(bp, g, order, t)
    ensures Banded(t)
  {
  }

  /** The table saved with a program lists every numeric anchor of the drawing once: each constant's
  and condition's number and the action's own, under a name of its own, with the authored value
  in the middle of its domain. */
  lemma TableListsEveryAnchorOnce(bp: Blueprint, g: Graph, action: Node, table: seq<Tunable>)
    requires NodesOk(bp.nodes) && Tabled(bp, g, action, table)
    ensures forall k :: k in Exported(table) <==> Drawn(bp, g, k) || k in ActionKnobs(action)
    ensures NamesDistinct(table) && forall t :: t in table ==> Banded(t)
  {
    hide NodesOk, OrderTunables, ActionTunables, NamesDistinct, ValueOf, Exported, Drawn, ActionKnobs, Banded;
    var order :| ListsNodes(bp, order) && table == OrderTunables(bp, g, order) + ActionTunables(action);
    var a, b := OrderTunables(bp, g, order), ActionTunables(action);
    OrderTable(bp, g, order);
    ExportedBoth(a, b);
    forall k ensures k in Exported(table) <==> Drawn(bp, g, k) || k in ActionKnobs(action) {
      OrderExports(bp, g, order, k);
      ActionExports(action, k);
    }
    ActionExports(action, ("", 0.0));
    forall i, j | 0 <= i < |a| && 0 <= j < |b| ensures a[i].name != b[j].name {
      assert ListsValue(bp, g, order, a[i]);
      var id :| id in order && ValueOf(bp, g, id, a[i]);
      ValuesApart(bp, g, id, a[i], action, b[j]);
    }
    JoinedNames(a, b);
    forall i | 0 <= i < |table| ensures Banded(table[i]) {
      if i < |a| {
        ListedDomain(bp, g, order, a[i]);
      } else {
        assert table[i] == b[i - |a|];
      }
    }
  }

  // ---------- what a guard's text reads, in terms of the drawing ----------

  /** Node `id` appears below the guard, as a condition or as the constant on its left. */
  predicate Shows(t: Guard, id: Id) {
    match t
    case Test(own, left, _, _) => own == id || (left.Knob? && left.id == id)
    case Join(_, inputs) => exists i :: 0 <= i < |inputs| && Shows(inputs[i].guard, id)
  }

  lemma OperandKind(g: Graph, ins: seq<(Id, bool)>)
    requires Operands(g, ins) != []
    ensures IsKind(g, Operands(g, ins)[0], Source)
  {
    var k := OperandsFrom(g, ins);
  }

  lemma LeftKnobs(bp: Blueprint, g: Graph, n: Node, o: Operand, k: Knob)
    requires LeftSide(bp, g, n, o)
    ensures o.Field? ==> o.expr != "__param"
    ensures k in OperandKnobs(o) ==> Drawn(bp, g, k)
  {
    if "field" !in n.params {
      var ins := Outs(g.incoming, n.id);
      OperandKind(g, ins);
      var src := Find(bp.nodes, Operands(g, ins)[0]).value;
      if k in OperandKnobs(o) {
        assert NumericNode(g, src) && k == NodeKnob(src);
      }
    }
  }

  /** Below a node of the drawing there are only numbers of the drawing. */
  lemma {:induction false} UnfoldedKnobs(bp: Blueprint, g: Graph, id: Id, t: Guard, k: Knob)
    requires Unfolds(bp, g, id, t)
    ensures Plain(t) && (k in Knobs(t) ==> Drawn(bp, g, k))
    decreases t
  {
    var n := Find(bp.nodes, id).value;
    match t
    case Test(_, left, _, value) =>
      LeftKnobs(bp, g, n, left, k);
      if k in AnchorKnobs(KnobName(id), value) {
        assert NumericNode(g, n) && k == NodeKnob(n);
      }
    case Join(_, inputs) =>
      forall i | 0 <= i < |inputs| ensures Plain(inputs[i].guard) && (k in Knobs(inputs[i].guard) ==> Drawn(bp, g, k)) {
        UnfoldedKnobs(bp, g, Outs(g.incoming, id)[i].0, inputs[i].guard, k);
      }
      InUnion(InputKnobs(inputs), k);
      assert Knobs(t) == Union(InputKnobs(inputs));
  }

  /** Names of values tell the nodes apart. */
  lemma ValueNames(a: string, b: string)
    ensures KnobName(a) == KnobName(b) <==> a == b
  {
    ValueName(a);
    ValueName(b);
    if KnobName(a) == KnobName(b) {
      NamesDecode(a, "value", b, "value");
    }
  }

  lemma ShownInTest(bp: Blueprint, g: Graph, id: Id, t: Guard, n: Node)
    requires t.Test? && Unfolds(bp, g, id, t) && Find(bp.nodes, n.id) == Some(n) && NumericNode(g, n)
    ensures NodeKnob(n) in Knobs(t) <==> Shows(t, n.id)
  {
    ValueNames(id, n.id);
    if t.left.Knob? {
      ValueNames(t.left.id, n.id);
    }
  }

  /** A node's own number is below a guard exactly when the node is. */
  lemma {:induction false} ShownKnob(bp: Blueprint, g: Graph, id: Id, t: Guard, n: Node)
    requires Unfolds(bp, g, id, t) && NodesOk(bp.nodes) && n in bp.nodes && NumericNode(g, n)
    ensures NodeKnob(n) in Knobs(t) <==> Shows(t, n.id)
    decreases t
  {
    hide NodesOk;
    match t
    case Test(_, _, _, _) =>
      FindNode(bp, n);
      ShownInTest(bp, g, id, t, n);
    case Join(_, inputs) =>
      forall i | 0 <= i < |inputs| ensures NodeKnob(n) in InputKnobs(inputs)[i] <==> Shows(inputs[i].guard, n.id) {
        ShownKnob(bp, g, Outs(g.incoming, id)[i].0, inputs[i].guard, n);
      }
      InUnion(InputKnobs(inputs), NodeKnob(n));
      assert Knobs(t) == Union(InputKnobs(inputs));
  }

  // ---------- the whole program ----------

  function Optional(t: Option<seq<Token>>): seq<seq<Token>> {
    if t.Some? then [t.value] else []
  }

  function CallTexts(call: Option<Call>): seq<seq<Token>> {
    if call.None? then [] else Optional(call.value.price) + Optional(call.value.budget)
  }

  function GuardTexts(steps: seq<Step>): seq<seq<Token>> {
    seq(|steps|, k requires 0 <= k < |steps| => Negated(steps[k].0, steps[k].1))
  }

  /** Everything a program computes: its guards, then the price and the budget of its order. */
  function Texts(p: Program): seq<seq<Token>> {
    GuardTexts(p.steps) + CallTexts(p.call)
  }

  ghost predicate SomeReads(texts: seq<seq<Token>>, k: Knob) {
    exists x :: 0 <= x < |texts| && Reads(texts[x], k)
  }

  ghost predicate AllCallOnly(texts: seq<seq<Token>>, ks: set<Knob>) {
    forall x :: 0 <= x < |texts| ==> CallsOnly(texts[x], ks)
  }

  lemma TextsServe(texts: seq<seq<Token>>, kss: seq<set<Knob>>, ks: set<Knob>)
    requires AllServe(texts, kss) && Union(kss) == ks
    ensures forall k :: SomeReads(texts, k) <==> k in ks
    ensures AllCallOnly(texts, ks)
  {
    forall k ensures SomeReads(texts, k) <==> k in ks {
      InUnion(kss, k);
      forall x | 0 <= x < |texts| ensures Reads(texts[x], k) <==> k in kss[x] {
        ServesExactly(texts[x], kss[x], k);
      }
    }
    forall x | 0 <= x < |texts| ensures CallsOnly(texts[x], ks) {
      assert Serves(texts[x], kss[x]);
      forall k | k in kss[x] ensures k in ks {
        InUnion(kss, k);
      }
      CallsWider(texts[x], kss[x], ks);
    }
  }

  lemma {:induction false} UnionBoth(a: seq<set<Knob>>, b: seq<set<Knob>>)
    ensures Union(a + b) == Union(a) + Union(b)
    decreases |a|
  {
    if a == [] {
      assert a + b == b;
    } else {
      assert (a + b)[1..] == a[1..] + b;
      UnionBoth(a[1..], b);
    }
  }

  function AsSets(t: Option<seq<Token>>, ks: set<Knob>): seq<set<Knob>> {
    if t.Some? then [ks] else []
  }

  lemma ParamServes(n: Node, param: string)
    requires param in n.params
    ensures Serves(Anchor(n.id + "_" + param, n.params[param]), ParamKnobs(n, param))
  {
    AnchorServes(n.id + "_" + param, n.params[param]);
  }

  lemma ParamNames(id: Id)
    ensures id + "_" + "price" == id + "_price" && id + "_" + "budget_ratio" == id + "_budget_ratio"
  {
  }

  /** The price reads the action's own number, or one the chain reads anyway. */
  lemma PriceServes(action: Node, steps: seq<Step>, gs: seq<Signed>) returns (ks: set<Knob>)
    requires StepsAre(steps, gs) && OrderCall(action, steps).Some?
    ensures AllServe(Optional(OrderCall(action, steps).value.price), AsSets(OrderCall(action, steps).value.price, ks))
    ensures Union(AsSets(OrderCall(action, steps).value.price, ks)) + Union(InputKnobs(gs))
         == ParamKnobs(action, "price") + Union(InputKnobs(gs))
  {
    hide Serves;
    if "price" in action.params {
      ks := ParamKnobs(action, "price");
      ParamNames(action.id);
      ParamServes(action, "price");
    } else {
      ks := {};
      var j := InheritedPrice(steps, gs);
      if j < |gs| {
        var c := gs[j].guard;
        ks := AnchorKnobs(KnobName(c.id), c.value);
        AnchorServes(KnobName(c.id), c.value);
        forall k | k in ks ensures k in Union(InputKnobs(gs)) {
          assert k in Knobs(c) && Knobs(c) == InputKnobs(gs)[j];
          InUnion(InputKnobs(gs), k);
        }
      }
    }
  }

  lemma CallServes(action: Node, steps: seq<Step>, gs: seq<Signed>) returns (kss: seq<set<Knob>>)
    requires StepsAre(steps, gs)
    ensures AllServe(CallTexts(OrderCall(action, steps)), kss)
    ensures Union(InputKnobs(gs)) + Union(kss)
         == Union(InputKnobs(gs)) + if action.nodeType == "action_hold" then {} else ActionKnobs(action)
  {
    hide Serves, StepsAre;
    var call := OrderCall(action, steps);
    if call.None? {
      kss := [];
    } else {
      var price := PriceServes(action, steps, gs);
      var budget := call.value.budget;
      ParamNames(action.id);
      if budget.Some? {
        ParamServes(action, "budget_ratio");
      }
      var a, b := AsSets(call.value.price, price), AsSets(budget, ParamKnobs(action, "budget_ratio"));
      assert Union(b) == ParamKnobs(action, "budget_ratio");
      kss := a + b;
      UnionBoth(a, b);
    }
  }

  /** The knobs of the guards on the chain, and of the action unless it is a hold. */
  function ReadKnobs(action: Node, gs: seq<Signed>): set<Knob> {
    Union(InputKnobs(gs)) + if action.nodeType == "action_hold" then {} else ActionKnobs(action)
  }

  ghost predicate AllPlain(gs: seq<Signed>) {
    forall i :: 0 <= i < |gs| ==> Plain(gs[i].guard)
  }

  lemma StepsServe(steps: seq<Step>, gs: seq<Signed>)
    requires StepsAre(steps, gs) && AllPlain(gs)
    ensures AllServe(GuardTexts(steps), InputKnobs(gs))
  {
    forall i | 0 <= i < |steps| ensures Serves(GuardTexts(steps)[i], InputKnobs(gs)[i]) {
      GuardServes(gs[i].guard);
      NegatedServes(steps[i].0, steps[i].1, Knobs(gs[i].guard));
    }
  }

  lemma ReversedSteps(steps: seq<Step>, gs: seq<Signed>)
    requires StepsAre(steps, gs)
    ensures StepsAre(Reverse(steps), Reverse(gs)) && Union(InputKnobs(Reverse(gs))) == Union(InputKnobs(gs))
  {
    var back := Reverse(gs);
    forall k ensures k in Union(InputKnobs(back)) <==> k in Union(InputKnobs(gs)) {
      InUnion(InputKnobs(back), k);
      InUnion(InputKnobs(gs), k);
      assert forall i :: 0 <= i < |gs| ==> InputKnobs(back)[|gs| - 1 - i] == InputKnobs(gs)[i];
      assert forall i :: 0 <= i < |gs| ==> InputKnobs(back)[i] == InputKnobs(gs)[|gs| - 1 - i];
    }
  }

  lemma ProgramServes(p: Program, action: Node, gs: seq<Signed>)
    requires StepsAre(p.steps, gs) && AllPlain(gs) && p.call == OrderCall(action, Reverse(p.steps))
    ensures forall k :: SomeReads(Texts(p), k) <==> k in ReadKnobs(action, gs)
    ensures AllCallOnly(Texts(p), ReadKnobs(action, gs))
  {
    StepsServe(p.steps, gs);
    ReversedSteps(p.steps, gs);
    var kss := CallServes(action, Reverse(p.steps), Reverse(gs));
    UnionBoth(InputKnobs(gs), kss);
    TextsServe(Texts(p), InputKnobs(gs) + kss, ReadKnobs(action, gs));
  }

  // ---------- text against table ----------

  /** Every number of the drawing is on the chain, and so are the action's unless there are none. */
  ghost predicate EveryNumberInUse(bp: Blueprint, g: Graph, action: Node, gs: seq<Signed>) {
    && (action.nodeType == "action_hold" ==> ActionTunables(action) == [])
    && forall n :: n in bp.nodes && NumericNode(g, n) ==> ShownBy(gs, n.id)
  }

  predicate ShownBy(gs: seq<Signed>, id: Id) {
    exists i :: 0 <= i < |gs| && Shows(gs[i].guard, id)
  }

  ghost predicate AllUnfold(bp: Blueprint, g: Graph, gs: seq<Signed>) {
    forall i :: 0 <= i < |gs| ==> IsDrawing(bp, g, gs[i].guard)
  }

  ghost predicate IsDrawing(bp: Blueprint, g: Graph, t: Guard) {
    exists id :: Unfolds(bp, g, id, t)
  }

  lemma ChainGuardsAt(chain: seq<(Id, bool)>, trees: map<Id, Guard>, i: nat)
    requires (forall k :: 0 <= k < |chain| ==> chain[k].0 in trees)
    ensures |ChainGuards(chain, trees)| == |chain|
    ensures i < |chain| ==> ChainGuards(chain, trees)[i].guard == trees[chain[|chain| - 1 - i].0]
  {
  }

  lemma ChainUnfolds(bp: Blueprint, g: Graph, steps: seq<Step>, chain: seq<(Id, bool)>, trees: map<Id, Guard>)
    requires StepsOf(bp, g, chain, steps, trees) && forall k :: 0 <= k < |chain| ==> chain[k].0 in trees
    ensures AllUnfold(bp, g, ChainGuards(chain, trees))
  {
    hide StepOf, IsDrawing, ChainGuards;
    var gs := ChainGuards(chain, trees);
    ChainGuardsAt(chain, trees, 0);
    forall i | 0 <= i < |gs| ensures IsDrawing(bp, g, gs[i].guard) {
      ChainGuardsAt(chain, trees, i);
      var j := |chain| - 1 - i;
      assert StepOf(bp, g, chain[j], steps[j], trees);
      StepIsDrawing(bp, g, chain[j], steps[j], trees);
    }
  }

  lemma StepIsDrawing(bp: Blueprint, g: Graph, e: (Id, bool), step: Step, trees: map<Id, Guard>)
    requires StepOf(bp, g, e, step, trees)
    ensures e.0 in trees && IsDrawing(bp, g, trees[e.0])
  {
    assert Unfolds(bp, g, e.0, trees[e.0]);
  }

  lemma ChainKnobs(bp: Blueprint, g: Graph, gs: seq<Signed>)
    requires AllUnfold(bp, g, gs)
    ensures AllPlain(gs) && forall k :: k in Union(InputKnobs(gs)) ==> Drawn(bp, g, k)
  {
    forall i | 0 <= i < |gs| ensures Plain(gs[i].guard) {
      var id :| Unfolds(bp, g, id, gs[i].guard);
      UnfoldedKnobs(bp, g, id, gs[i].guard, ("", 0.0));
    }
    forall k | k in Union(InputKnobs(gs)) ensures Drawn(bp, g, k) {
      InUnion(InputKnobs(gs), k);
      var i :| 0 <= i < |gs| && k in InputKnobs(gs)[i];
      var id :| Unfolds(bp, g, id, gs[i].guard);
      UnfoldedKnobs(bp, g, id, gs[i].guard, k);
    }
  }

  lemma ChainShows(bp: Blueprint, g: Graph, gs: seq<Signed>, n: Node)
    requires AllUnfold(bp, g, gs) && NodesOk(bp.nodes) && n in bp.nodes && NumericNode(g, n)
    ensures NodeKnob(n) in Union(InputKnobs(gs)) <==> ShownBy(gs, n.id)
  {
    InUnion(InputKnobs(gs), NodeKnob(n));
    forall i | 0 <= i < |gs| ensures NodeKnob(n) in InputKnobs(gs)[i] <==> Shows(gs[i].guard, n.id) {
      var id :| Unfolds(bp, g, id, gs[i].guard);
      ShownKnob(bp, g, id, gs[i].guard, n);
    }
  }

  lemma ActionKnobApart(g: Graph, n: Node, action: Node, k: Knob)
    requires NumericNode(g, n) && k in ActionKnobs(action)
    ensures k != NodeKnob(n)
  {
    ValueName(n.id);
    if k == NodeKnob(n) {
      if k in ParamKnobs(action, "price") {
        NamesDecode(action.id, "price", n.id, "value");
      } else {
        NamesDecode(action.id, "budget_ratio", n.id, "value");
      }
    }
  }

  lemma NodeUse(bp: Blueprint, g: Graph, action: Node, gs: seq<Signed>, n: Node)
    requires NodesOk(bp.nodes) && AllUnfold(bp, g, gs) && n in bp.nodes && NumericNode(g, n)
    ensures NodeKnob(n) in ReadKnobs(action, gs) <==> ShownBy(gs, n.id)
  {
    ChainShows(bp, g, gs, n);
    if NodeKnob(n) in ActionKnobs(action) {
      ActionKnobApart(g, n, action, NodeKnob(n));
    }
  }

  lemma ActionUse(bp: Blueprint, g: Graph, action: Node, gs: seq<Signed>)
    requires AllUnfold(bp, g, gs)
    ensures ActionKnobs(action) <= ReadKnobs(action, gs) <==> (action.nodeType == "action_hold" ==> ActionTunables(action) == [])
  {
    var own := ActionTunables(action);
    forall k | k in ActionKnobs(action) ensures k !in Union(InputKnobs(gs)) && own != [] {
      ActionExports(action, k);
      ChainKnobs(bp, g, gs);
      if Drawn(bp, g, k) {
        var n :| n in bp.nodes && NumericNode(g, n) && k == NodeKnob(n);
        ActionKnobApart(g, n, action, k);
      }
    }
    if own != [] {
      var k: Knob := (own[0].name, own[0].default);
      ActionExports(action, k);
      assert own[0] in own;
      assert k in ActionKnobs(action);
    }
  }

  /** The text reads every knob of the table exactly when every number is in use. */
  lemma UseIsReading(bp: Blueprint, g: Graph, action: Node, gs: seq<Signed>, table: set<Knob>)
    requires NodesOk(bp.nodes) && AllUnfold(bp, g, gs)
    requires forall k :: k in table <==> Drawn(bp, g, k) || k in ActionKnobs(action)
    ensures table <= ReadKnobs(action, gs) <==> EveryNumberInUse(bp, g, action, gs)
  {
    hide ActionKnobs, ActionTunables, NodesOk, AllUnfold, ShownBy, ReadKnobs;
    ActionUse(bp, g, action, gs);
    forall n | n in bp.nodes && NumericNode(g, n)
      ensures NodeKnob(n) in table && (NodeKnob(n) in ReadKnobs(action, gs) <==> ShownBy(gs, n.id))
    {
      assert Drawn(bp, g, NodeKnob(n));
      NodeUse(bp, g, action, gs, n);
    }
  }

  /** The emitted text against the saved table: whatever mentions the bridge is a whole call for a
  knob of the table with its authored value, so a hot parameter that is served is always one that
  was exported; and every exported knob is read exactly when every number is in use. */
  lemma TextReadsTheTable(bp: Blueprint, g: Graph, p: Program, action: Node, chain: seq<(Id, bool)>, trees: map<Id, Guard>)
    requires NodesOk(bp.nodes) && Compiled(bp, g, p, action, chain, trees)
    ensures forall k :: 0 <= k < |chain| ==> chain[k].0 in trees
    ensures AllCallOnly(Texts(p), Exported(p.tunables))
    ensures (forall k :: k in Exported(p.tunables) ==> SomeReads(Texts(p), k))
       <==> EveryNumberInUse(bp, g, action, ChainGuards(chain, trees))
  {
    hide NodesOk, StepsAre, AllUnfold, AllPlain, Texts, Exported, ReadKnobs, EveryNumberInUse, ActionKnobs;
    StepsAreChain(bp, g, p.steps, chain, trees);
    ChainUnfolds(bp, g, Reverse(p.steps), chain, trees);
    var gs := ChainGuards(chain, trees);
    ChainKnobs(bp, g, gs);
    ProgramServes(p, action, gs);
    TableListsEveryAnchorOnce(bp, g, action, p.tunables);
    ReadAreListed(bp, g, action, gs, Exported(p.tunables));
    forall x | 0 <= x < |Texts(p)| ensures CallsOnly(Texts(p)[x], Exported(p.tunables)) {
      CallsWider(Texts(p)[x], ReadKnobs(action, gs), Exported(p.tunables));
    }
    UseIsReading(bp, g, action, gs, Exported(p.tunables));
  }

  lemma ReadAreListed(bp: Blueprint, g: Graph, action: Node, gs: seq<Signed>, table: set<Knob>)
    requires AllUnfold(bp, g, gs)
    requires forall k :: k in table <==> Drawn(bp, g, k) || k in ActionKnobs(action)
    ensures ReadKnobs(action, gs) <= table
  {
    ChainKnobs(bp, g, gs);
  }
}
