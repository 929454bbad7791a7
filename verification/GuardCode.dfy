/** The guard expressions of `blueprint.rs`. */
module GuardCode {
  import opened Wrappers
  import opened Lua

  /* What a condition or logic gate means, the tokens it is emitted as, and what Lua makes of those
  tokens. */

  // ---------- guards ----------

  datatype Json =
    | JNull
    | JBool(b: bool)
    | JNum(n: real)
    | JStr(s: string)
    | JArr(items: seq<Json>)
    | JObj

  /** The left side of a comparison: a whitelisted field, or the value of a constant node. */
  datatype Operand = Field(expr: string) | Knob(id: string, value: Json)

  /** A guard node unfolded down to its conditions. */
  datatype Guard =
    | Test(id: string, left: Operand, op: string, value: Json)
    | Join(conj: bool, inputs: seq<Signed>)

  datatype Signed = Signed(guard: Guard, when: bool)

  predicate Scalar(v: Json) {
    v.JBool? || v.JNum? || v.JStr?
  }

  predicate Members(v: Json) {
    v.JArr? && v.items != [] && forall i :: 0 <= i < |v.items| ==> v.items[i].JNum? || v.items[i].JStr?
  }

  predicate ConditionOp(op: string) {
    op == "<" || op == "<=" || op == ">" || op == ">=" || op == "==" || op == "!=" || op == "in"
  }

  /** What the two validation stages guarantee of every guard. */
  predicate Wf(g: Guard) {
    match g
    case Test(_, left, op, value) =>
      && ConditionOp(op) && (if op == "in" then Members(value) else Scalar(value))
      && (left.Knob? ==> Scalar(left.value))
    case Join(_, inputs) => inputs != [] && forall i :: 0 <= i < |inputs| ==> Wf(inputs[i].guard)
  }

  /** No condition below uses `!=`. */
  predicate Clean(g: Guard) {
    match g
    case Test(_, _, op, _) => op != "!="
    case Join(_, inputs) => forall i :: 0 <= i < |inputs| ==> Clean(inputs[i].guard)
  }

  // ---------- meaning ----------

  function LiteralValue(v: Json): Value {
    match v
    case JBool(b) => VBool(b)
    case JNum(n) => VNum(n)
    case JStr(s) => VText(s)
    case _ => VNil
  }

  /** A numeric anchor reads its hot parameter, or the authored literal without one. */
  function AnchorValue(id: string, v: Json, env: Env): Value {
    if v.JNum? && KnobName(id) in env.hot then VNum(env.hot[KnobName(id)]) else LiteralValue(v)
  }

  function KnobName(id: string): string {
    id + "_value"
  }

  function OperandValue(o: Operand, env: Env): Value {
    match o
    case Field(x) => if x in env.vars then env.vars[x] else VNil
    case Knob(id, v) => AnchorValue(id, v, env)
  }

  type Order = (string, string) -> bool

  /** What a node says of the world; nothing when it compares values that have no order. */
  function Meaning(g: Guard, env: Env, ord: Order): Option<bool> {
    match g
    case Test(id, left, op, value) =>
      var l := OperandValue(left, env);
      if op == "in" then Some(value.JArr? && exists i :: 0 <= i < |value.items| && l == LiteralValue(value.items[i]))
      else Compare(if op == "!=" then "~=" else op, l, AnchorValue(id, value, env), ord)
    case Join(conj, inputs) =>
      Settle(conj, seq(|inputs|, i requires 0 <= i < |inputs| => SignedMeaning(inputs[i], env, ord)))
  }

  function SignedMeaning(s: Signed, env: Env, ord: Order): Option<bool> {
    Sign(Meaning(s.guard, env, ord), s.when)
  }

  /** An edge drawn with `when: false` asks for the opposite answer. */
  function Sign(b: Option<bool>, when: bool): Option<bool> {
    match b
    case None => None
    case Some(x) => Some(x == when)
  }

  /** Inputs are consulted in order until one settles the gate. */
  function Settle(conj: bool, answers: seq<Option<bool>>): Option<bool> {
    if answers == [] then Some(conj)
    else if answers[0] == Some(conj) then Settle(conj, answers[1..])
    else answers[0]
  }

  /** When every input has an answer, a gate is the plain conjunction or disjunction of them. */
  lemma {:induction false} GateIsConnective(conj: bool, answers: seq<Option<bool>>)
    requires forall i :: 0 <= i < |answers| ==> answers[i].Some?
    ensures Settle(conj, answers) ==
            Some(if conj then forall i :: 0 <= i < |answers| ==> answers[i].value
                 else exists i :: 0 <= i < |answers| && answers[i].value)
    decreases |answers|
  {
    if answers != [] {
      var tail := answers[1..];
      assert forall i :: 0 <= i < |tail| ==> tail[i] == answers[i + 1];
      GateIsConnective(conj, tail);
      if exists i :: 0 <= i < |answers| && answers[i].value != conj {
        var i :| 0 <= i < |answers| && answers[i].value != conj;
        assert i > 0 ==> tail[i - 1].value != conj;
        if answers[0].value == conj {
          assert Settle(conj, tail) == Some(!conj);
        }
      } else {
        assert forall i :: 0 <= i < |tail| ==> tail[i].value == conj;
        assert Settle(conj, tail) == Some(conj);
      }
    }
  }

  // ---------- emission ----------

  function Literal(v: Json): seq<Token> {
    match v
    case JBool(b) => [if b then True else False]
    case JNum(n) => if n < 0.0 then [Minus, Number(0.0 - n)] else [Number(n)]
    case JStr(s) => [Text(s)]
    case _ => [Nil]
  }

  /** `param_expr`: numeric anchors go through the bridge, everything else stays a literal. */
  function Anchor(name: string, v: Json): seq<Token> {
    if v.JNum? then [Name("__param"), LPar, Text(name), Comma] + Literal(v) + [RPar] else Literal(v)
  }

  function EmitOperand(o: Operand): seq<Token> {
    match o
    case Field(x) => [Name(x)]
    case Knob(id, v) => Anchor(KnobName(id), v)
  }

  /** The arms of an expanded `in`, each an equality. */
  function Arms(left: seq<Token>, items: seq<Json>): seq<seq<Token>> {
    seq(|items|, i requires 0 <= i < |items| => left + [Rel("==")] + Literal(items[i]))
  }

  function JoinTail(joiner: Token, parts: seq<seq<Token>>): seq<Token> {
    if parts == [] then [] else [joiner] + parts[0] + JoinTail(joiner, parts[1..])
  }

  function JoinParts(joiner: Token, parts: seq<seq<Token>>): seq<Token> {
    if parts == [] then [] else parts[0] + JoinTail(joiner, parts[1..])
  }

  /** `comparison_tunable`. */
  function EmitTest(id: string, left: Operand, op: string, value: Json): seq<Token> {
    if op == "in" && value.JArr? then [LPar] + JoinParts(Or, Arms(EmitOperand(left), value.items)) + [RPar]
    else EmitOperand(left) + [Rel(op)] + Anchor(KnobName(id), value)
  }

  /** `wrap_negation`. */
  function Negated(t: seq<Token>, when: bool): seq<Token> {
    if when then t else [Not, LPar] + t + [RPar]
  }

  function Joiner(conj: bool): Token {
    if conj then And else Or
  }

  function EmitJoin(conj: bool, parts: seq<seq<Token>>): seq<Token> {
    [LPar] + JoinParts(Joiner(conj), parts) + [RPar]
  }

  function Emit(g: Guard): seq<Token> {
    match g
    case Test(id, left, op, value) => EmitTest(id, left, op, value)
    case Join(conj, inputs) => EmitJoin(conj, EmitParts(inputs))
  }

  function EmitParts(inputs: seq<Signed>): seq<seq<Token>> {
    seq(|inputs|, i requires 0 <= i < |inputs| => EmitSigned(inputs[i]))
  }

  function EmitSigned(s: Signed): seq<Token> {
    Negated(Emit(s.guard), s.when)
  }

  // ---------- the expressions the tokens stand for ----------

  function LiteralExpr(v: Json): Expr {
    match v
    case JBool(b) => EBool(b)
    case JNum(n) => if n < 0.0 then ENeg(ENum(0.0 - n)) else ENum(n)
    case JStr(s) => EText(s)
    case _ => ENil
  }

  function AnchorExpr(name: string, v: Json): Expr {
    if v.JNum? then ECall("__param", [EText(name), LiteralExpr(v)]) else LiteralExpr(v)
  }

  function OperandExpr(o: Operand): Expr {
    match o
    case Field(x) => EVar(x)
    case Knob(id, v) => AnchorExpr(KnobName(id), v)
  }

  function Chain(conj: bool, l: Expr, es: seq<Expr>): Expr
    decreases |es|
  {
    if es == [] then l else Chain(conj, if conj then EAnd(l, es[0]) else EOr(l, es[0]), es[1..])
  }

  function ChainAll(conj: bool, es: seq<Expr>): Expr {
    if es == [] then EBool(conj) else Chain(conj, es[0], es[1..])
  }

  function SignedExpr(e: Expr, when: bool): Expr {
    if when then e else ENot(e)
  }

  function GuardExpr(g: Guard): Expr {
    match g
    case Test(id, left, op, value) =>
      if op == "in" && value.JArr? then ChainAll(false, ArmExprs(left, value.items))
      else ERel(op, OperandExpr(left), AnchorExpr(KnobName(id), value))
    case Join(conj, inputs) => ChainAll(conj, GuardExprs(inputs))
  }

  function ArmExprs(left: Operand, items: seq<Json>): seq<Expr> {
    seq(|items|, i requires 0 <= i < |items| => ERel("==", OperandExpr(left), LiteralExpr(items[i])))
  }

  function GuardExprs(inputs: seq<Signed>): seq<Expr> {
    seq(|inputs|, i requires 0 <= i < |inputs| => SignedGuardExpr(inputs[i]))
  }

  function SignedGuardExpr(s: Signed): Expr {
    SignedExpr(GuardExpr(s.guard), s.when)
  }

  // ---------- parsing what was emitted ----------

  /** `t` reads as the comparison-level expression `e` wherever it stands. */
  ghost predicate ReadsAs(t: seq<Token>, e: Expr) {
    forall rest :: !StartsRel(rest) ==> ParseCmp(t + rest) == Some((e, rest))
  }

  /** A parse that fails, or stops in front of a `!=`. */
  predicate StopsAtBang(r: Parse<Expr>) {
    r.None? || (r.value.1 != [] && r.value.1[0] == Rel("!="))
  }

  ghost predicate Unreadable(t: seq<Token>) {
    forall rest :: StopsAtBang(ParseCmp(t + rest))
  }

  lemma ReadAt(t: seq<Token>, e: Expr, rest: seq<Token>)
    requires ReadsAs(t, e) && !StartsRel(rest)
    ensures ParseCmp(t + rest) == Some((e, rest))
  {
  }

  lemma ParseLiteral(v: Json, rest: seq<Token>)
    requires Scalar(v)
    ensures ParseUnary(Literal(v) + rest) == Some((LiteralExpr(v), rest))
  {
    var t := Literal(v) + rest;
    assert t[|Literal(v)|..] == rest;
    if v.JNum? && v.n < 0.0 {
      assert t[1..] == [Number(0.0 - v.n)] + rest;
      assert t[1..][1..] == rest;
    }
  }

  /** A primary or unary expression followed by a closing token reads as an or-level expression. */
  lemma UnaryIsOr(t: seq<Token>, e: Expr, rest: seq<Token>)
    requires ParseUnary(t) == Some((e, rest))
    requires rest != [] && (rest[0] == RPar || rest[0] == Comma)
    ensures ParseOr(t) == Some((e, rest))
  {
    assert ParseCmpTail(e, rest) == Some((e, rest));
    assert ParseCmp(t) == Some((e, rest));
    assert ParseAndTail(e, rest) == Some((e, rest));
    assert ParseAnd(t) == Some((e, rest));
    assert ParseOrTail(e, rest) == Some((e, rest));
  }

  lemma ParseAnchor(name: string, v: Json, rest: seq<Token>)
    requires Scalar(v)
    ensures ParseUnary(Anchor(name, v) + rest) == Some((AnchorExpr(name, v), rest))
  {
    if v.JNum? {
      var t := Anchor(name, v) + rest;
      var args := [Text(name), Comma] + (Literal(v) + ([RPar] + rest));
      assert t == [Name("__param"), LPar] + args;
      assert t[2..] == args;
      ParseBridgeArgs(name, v, rest);
    } else {
      ParseLiteral(v, rest);
    }
  }

  lemma ParseBridgeArgs(name: string, v: Json, rest: seq<Token>)
    requires Scalar(v)
    ensures ParseArgs([Text(name), Comma] + (Literal(v) + ([RPar] + rest))) == Some(([EText(name), LiteralExpr(v)], rest))
  {
    hide ParseOr;
    var value := Literal(v) + ([RPar] + rest);
    var args := [Text(name), Comma] + value;
    UnaryIsOr(args, EText(name), args[1..]);
    assert args[1..][1..] == value;
    ParseLiteral(v, [RPar] + rest);
    UnaryIsOr(value, LiteralExpr(v), [RPar] + rest);
    assert ([RPar] + rest)[1..] == rest;
    assert ParseArgs(value) == Some(([LiteralExpr(v)], rest));
    assert [EText(name)] + [LiteralExpr(v)] == [EText(name), LiteralExpr(v)];
  }

  lemma ParseOperand(o: Operand, rest: seq<Token>)
    requires o.Knob? ==> Scalar(o.value)
    requires rest == [] || rest[0] != LPar
    ensures ParseUnary(EmitOperand(o) + rest) == Some((OperandExpr(o), rest))
  {
    match o
    case Field(x) => assert ([Name(x)] + rest)[1..] == rest;
    case Knob(id, v) => ParseAnchor(KnobName(id), v, rest);
  }

  lemma ReadRelationAt(left: Operand, op: string, right: seq<Token>, r: Expr, rest: seq<Token>)
    requires (left.Knob? ==> Scalar(left.value)) && IsRel(op)
    requires ParseUnary(right + rest) == Some((r, rest)) && !StartsRel(rest)
    ensures ParseCmp(EmitOperand(left) + ([Rel(op)] + (right + rest))) == Some((ERel(op, OperandExpr(left), r), rest))
  {
    var after := [Rel(op)] + (right + rest);
    ParseOperand(left, after);
    assert after[1..] == right + rest;
    var e := ERel(op, OperandExpr(left), r);
    assert ParseCmpTail(e, rest) == Some((e, rest));
    assert StartsRel(after) && after[0].op == op;
    assert ParseCmpTail(OperandExpr(left), after) == Some((e, rest));
  }

  /** `left op right`, for an operator Lua has. */
  lemma ReadRelation(left: Operand, op: string, right: seq<Token>, r: Expr)
    requires (left.Knob? ==> Scalar(left.value)) && IsRel(op)
    requires forall rest :: ParseUnary(right + rest) == Some((r, rest))
    ensures ReadsAs(EmitOperand(left) + [Rel(op)] + right, ERel(op, OperandExpr(left), r))
  {
    hide ParseCmp, ParseUnary, EmitOperand, OperandExpr;
    var l, t := EmitOperand(left), EmitOperand(left) + [Rel(op)] + right;
    forall rest | !StartsRel(rest) ensures ParseCmp(t + rest) == Some((ERel(op, OperandExpr(left), r), rest)) {
      assert t + rest == l + ([Rel(op)] + (right + rest));
      assert ParseUnary(right + rest) == Some((r, rest));
      ReadRelationAt(left, op, right, r, rest);
    }
  }

  /** `left != right`: Lua reads the left side and stops. */
  lemma BangStops(left: Operand, right: seq<Token>)
    requires left.Knob? ==> Scalar(left.value)
    ensures Unreadable(EmitOperand(left) + [Rel("!=")] + right)
  {
    var t := EmitOperand(left) + [Rel("!=")] + right;
    forall rest ensures StopsAtBang(ParseCmp(t + rest)) {
      var after := [Rel("!=")] + (right + rest);
      assert t + rest == EmitOperand(left) + after;
      ParseOperand(left, after);
    }
  }

  // ---------- chains ----------

  /** All parts read as their expressions. */
  ghost predicate PartsRead(parts: seq<seq<Token>>, es: seq<Expr>) {
    |parts| == |es| && forall i :: 0 <= i < |parts| ==> ReadsAs(parts[i], es[i])
  }

  /** The parts read up to one that does not. */
  ghost predicate PartsBreak(parts: seq<seq<Token>>, es: seq<Expr>, k: nat) {
    && k < |parts| == |es| && Unreadable(parts[k])
    && forall i :: 0 <= i < k ==> ReadsAs(parts[i], es[i])
  }

  predicate Closes(rest: seq<Token>) {
    rest == [] || rest[0] == RPar
  }

  lemma {:induction false} AndChain(l: Expr, parts: seq<seq<Token>>, es: seq<Expr>, rest: seq<Token>)
    requires PartsRead(parts, es) && Closes(rest)
    ensures ParseAndTail(l, JoinTail(And, parts) + rest) == Some((Chain(true, l, es), rest))
    decreases |parts|
  {
    if parts != [] {
      var more := JoinTail(And, parts[1..]) + rest;
      var t := JoinTail(And, parts) + rest;
      assert t[1..] == parts[0] + more;
      ReadAt(parts[0], es[0], more);
      AndChain(EAnd(l, es[0]), parts[1..], es[1..], rest);
    } else {
      assert JoinTail(And, parts) + rest == rest;
    }
  }

  lemma {:induction false} OrChain(l: Expr, parts: seq<seq<Token>>, es: seq<Expr>, rest: seq<Token>)
    requires PartsRead(parts, es) && Closes(rest)
    ensures ParseOrTail(l, JoinTail(Or, parts) + rest) == Some((Chain(false, l, es), rest))
    decreases |parts|
  {
    if parts != [] {
      var more := JoinTail(Or, parts[1..]) + rest;
      var t := JoinTail(Or, parts) + rest;
      assert t[1..] == parts[0] + more;
      ReadAt(parts[0], es[0], more);
      assert ParseAndTail(es[0], more) == Some((es[0], more));
      assert ParseAnd(parts[0] + more) == Some((es[0], more));
      OrChain(EOr(l, es[0]), parts[1..], es[1..], rest);
    } else {
      assert JoinTail(Or, parts) + rest == rest;
    }
  }

  lemma {:induction false} AndChainBreaks(l: Expr, parts: seq<seq<Token>>, es: seq<Expr>, k: nat, rest: seq<Token>)
    requires PartsBreak(parts, es, k)
    ensures StopsAtBang(ParseAndTail(l, JoinTail(And, parts) + rest))
    decreases |parts|
  {
    var more := JoinTail(And, parts[1..]) + rest;
    var t := JoinTail(And, parts) + rest;
    assert t[1..] == parts[0] + more;
    if k == 0 {
      assert StopsAtBang(ParseCmp(parts[0] + more));
    } else {
      ReadAt(parts[0], es[0], more);
      AndChainBreaks(EAnd(l, es[0]), parts[1..], es[1..], k - 1, rest);
    }
  }

  lemma {:induction false} OrChainBreaks(l: Expr, parts: seq<seq<Token>>, es: seq<Expr>, k: nat, rest: seq<Token>)
    requires PartsBreak(parts, es, k)
    ensures StopsAtBang(ParseOrTail(l, JoinTail(Or, parts) + rest))
    decreases |parts|
  {
    var more := JoinTail(Or, parts[1..]) + rest;
    var t := JoinTail(Or, parts) + rest;
    assert t[1..] == parts[0] + more;
    if k == 0 {
      assert StopsAtBang(ParseCmp(parts[0] + more));
      assert StopsAtBang(ParseAnd(parts[0] + more));
    } else {
      ReadAt(parts[0], es[0], more);
      assert more[0] == Or;
      assert ParseAndTail(es[0], more) == Some((es[0], more));
      assert ParseAnd(parts[0] + more) == Some((es[0], more));
      OrChainBreaks(EOr(l, es[0]), parts[1..], es[1..], k - 1, rest);
    }
  }

  /** A parenthesised chain of readable parts. */
  lemma JoinReads(conj: bool, parts: seq<seq<Token>>, es: seq<Expr>)
    requires PartsRead(parts, es) && parts != []
    ensures ReadsAs(EmitJoin(conj, parts), ChainAll(conj, es))
  {
    var e := ChainAll(conj, es);
    forall rest | !StartsRel(rest) ensures ParseCmp(EmitJoin(conj, parts) + rest) == Some((e, rest)) {
      var end := [RPar] + rest;
      var inner := JoinParts(Joiner(conj), parts) + end;
      var t := EmitJoin(conj, parts) + rest;
      assert t == [LPar] + inner;
      assert t[1..] == inner && end[1..] == rest;
      JoinInner(conj, parts, es, end);
      assert ParseUnary(t) == Some((e, rest));
      assert ParseCmpTail(e, rest) == Some((e, rest));
    }
  }

  lemma JoinInner(conj: bool, parts: seq<seq<Token>>, es: seq<Expr>, end: seq<Token>)
    requires PartsRead(parts, es) && parts != [] && end != [] && end[0] == RPar
    ensures ParseOr(JoinParts(Joiner(conj), parts) + end) == Some((ChainAll(conj, es), end))
  {
    var more := JoinTail(Joiner(conj), parts[1..]) + end;
    var t := JoinParts(Joiner(conj), parts) + end;
    assert t == parts[0] + more;
    ReadAt(parts[0], es[0], more);
    var e := ChainAll(conj, es);
    if conj {
      AndChain(es[0], parts[1..], es[1..], end);
      assert ParseAnd(t) == Some((e, end));
    } else {
      assert ParseAndTail(es[0], more) == Some((es[0], more));
      assert ParseAnd(t) == Some((es[0], more));
      OrChain(es[0], parts[1..], es[1..], end);
    }
  }

  lemma JoinBreaks(conj: bool, parts: seq<seq<Token>>, es: seq<Expr>, k: nat)
    requires PartsBreak(parts, es, k)
    ensures Unreadable(EmitJoin(conj, parts))
  {
    forall rest ensures StopsAtBang(ParseCmp(EmitJoin(conj, parts) + rest)) {
      var end := [RPar] + rest;
      var t := EmitJoin(conj, parts) + rest;
      assert t[1..] == JoinParts(Joiner(conj), parts) + end;
      JoinInnerBreaks(conj, parts, es, k, end);
      assert ParseUnary(t).None?;
    }
  }

  lemma JoinInnerBreaks(conj: bool, parts: seq<seq<Token>>, es: seq<Expr>, k: nat, end: seq<Token>)
    requires PartsBreak(parts, es, k)
    ensures StopsAtBang(ParseOr(JoinParts(Joiner(conj), parts) + end))
  {
    var more := JoinTail(Joiner(conj), parts[1..]) + end;
    var t := JoinParts(Joiner(conj), parts) + end;
    assert t == parts[0] + more;
    if k == 0 {
      assert StopsAtBang(ParseCmp(parts[0] + more));
      assert StopsAtBang(ParseAnd(t));
    } else {
      assert more[0] == Joiner(conj);
      ReadAt(parts[0], es[0], more);
      if conj {
        AndChainBreaks(es[0], parts[1..], es[1..], k - 1, end);
        assert StopsAtBang(ParseAnd(t));
      } else {
        assert ParseAndTail(es[0], more) == Some((es[0], more));
        assert ParseAnd(t) == Some((es[0], more));
        OrChainBreaks(es[0], parts[1..], es[1..], k - 1, end);
      }
    }
  }

  lemma NegatedReads(t: seq<Token>, e: Expr, when: bool)
    requires ReadsAs(t, e)
    ensures ReadsAs(Negated(t, when), SignedExpr(e, when))
  {
    if !when {
      JoinReads(true, [t], [e]);
      var paren := EmitJoin(true, [t]);
      assert paren == [LPar] + t + [RPar];
      forall rest | !StartsRel(rest) ensures ParseCmp(Negated(t, when) + rest) == Some((ENot(e), rest)) {
        var full := Negated(t, when) + rest;
        assert full == [Not] + (paren + rest);
        assert full[1..] == paren + rest;
        ReadAt(paren, e, rest);
        ParenIsUnary(t, e, rest);
        assert ParseCmpTail(ENot(e), rest) == Some((ENot(e), rest));
      }
    }
  }

  /** A parenthesis is read by the unary level alone. */
  lemma ParenIsUnary(t: seq<Token>, e: Expr, rest: seq<Token>)
    requires ReadsAs(t, e)
    ensures ParseUnary([LPar] + t + [RPar] + rest) == Some((e, rest))
  {
    var full := [LPar] + t + [RPar] + rest;
    var end := [RPar] + rest;
    assert full[1..] == t + end && end[1..] == rest;
    ReadAt(t, e, end);
    assert ParseAndTail(e, end) == Some((e, end));
    assert ParseAnd(t + end) == Some((e, end));
    assert ParseOrTail(e, end) == Some((e, end));
  }

  lemma NegatedBreaks(t: seq<Token>, when: bool)
    requires Unreadable(t)
    ensures Unreadable(Negated(t, when))
  {
    if !when {
      forall rest ensures StopsAtBang(ParseCmp(Negated(t, when) + rest)) {
        var full := Negated(t, when) + rest;
        var inner := t + ([RPar] + rest);
        assert full[1..] == [LPar] + inner;
        assert full[1..][1..] == inner;
        assert StopsAtBang(ParseCmp(inner));
        assert StopsAtBang(ParseAnd(inner));
        assert StopsAtBang(ParseOr(inner));
        assert ParseUnary([LPar] + inner).None?;
      }
    }
  }

  // ---------- the emitted guard ----------

  lemma AnchorReads(name: string, v: Json)
    requires Scalar(v)
    ensures forall rest :: ParseUnary(Anchor(name, v) + rest) == Some((AnchorExpr(name, v), rest))
  {
    forall rest ensures ParseUnary(Anchor(name, v) + rest) == Some((AnchorExpr(name, v), rest)) {
      ParseAnchor(name, v, rest);
    }
  }

  lemma LiteralReads(v: Json)
    requires Scalar(v)
    ensures forall rest :: ParseUnary(Literal(v) + rest) == Some((LiteralExpr(v), rest))
  {
    forall rest ensures ParseUnary(Literal(v) + rest) == Some((LiteralExpr(v), rest)) {
      ParseLiteral(v, rest);
    }
  }

  lemma TestReads(g: Guard)
    requires g.Test? && Wf(g) && Clean(g)
    ensures ReadsAs(Emit(g), GuardExpr(g))
  {
    if g.op == "in" {
      var arms := Arms(EmitOperand(g.left), g.value.items);
      var es := ArmExprs(g.left, g.value.items);
      forall i | 0 <= i < |arms| ensures ReadsAs(arms[i], es[i]) {
        LiteralReads(g.value.items[i]);
        ReadRelation(g.left, "==", Literal(g.value.items[i]), LiteralExpr(g.value.items[i]));
      }
      JoinReads(false, arms, es);
      assert Emit(g) == EmitJoin(false, arms);
    } else {
      AnchorReads(KnobName(g.id), g.value);
      ReadRelation(g.left, g.op, Anchor(KnobName(g.id), g.value), AnchorExpr(KnobName(g.id), g.value));
    }
  }

  /** A guard without `!=` is one Lua expression, the one that mirrors its tree. */
  lemma {:induction false} EmittedReads(g: Guard)
    requires Wf(g) && Clean(g)
    ensures ReadsAs(Emit(g), GuardExpr(g))
  {
    match g
    case Test(_, _, _, _) => TestReads(g);
    case Join(conj, inputs) =>
      var parts, es := EmitParts(inputs), GuardExprs(inputs);
      forall i | 0 <= i < |inputs| ensures ReadsAs(parts[i], es[i]) {
        assert parts[i] == EmitSigned(inputs[i]) && es[i] == SignedGuardExpr(inputs[i]);
        EmittedReads(inputs[i].guard);
        NegatedReads(Emit(inputs[i].guard), GuardExpr(inputs[i].guard), inputs[i].when);
      }
      JoinReads(conj, parts, es);
  }

  lemma {:induction false} FirstDirty(inputs: seq<Signed>) returns (k: nat)
    requires exists i :: 0 <= i < |inputs| && !Clean(inputs[i].guard)
    ensures k < |inputs| && !Clean(inputs[k].guard) && forall i :: 0 <= i < k ==> Clean(inputs[i].guard)
  {
    k := 0;
    while Clean(inputs[k].guard)
      invariant k < |inputs| && forall i :: 0 <= i < k ==> Clean(inputs[i].guard)
      decreases |inputs| - k
    {
      k := k + 1;
    }
  }

  /** A guard with a `!=` anywhere below is no Lua expression at all. */
  lemma {:induction false} EmittedBreaks(g: Guard)
    requires Wf(g) && !Clean(g)
    ensures Unreadable(Emit(g))
  {
    match g
    case Test(id, left, op, value) => BangStops(left, Anchor(KnobName(id), value));
    case Join(conj, inputs) =>
      var parts, es := EmitParts(inputs), GuardExprs(inputs);
      var k := FirstDirty(inputs);
      forall i | 0 <= i < k ensures ReadsAs(parts[i], es[i]) {
        assert parts[i] == EmitSigned(inputs[i]) && es[i] == SignedGuardExpr(inputs[i]);
        EmittedReads(inputs[i].guard);
        NegatedReads(Emit(inputs[i].guard), GuardExpr(inputs[i].guard), inputs[i].when);
      }
      assert parts[k] == EmitSigned(inputs[k]);
      EmittedBreaks(inputs[k].guard);
      NegatedBreaks(Emit(inputs[k].guard), inputs[k].when);
      JoinBreaks(conj, parts, es, k);
  }

  ghost predicate IsExpression(t: seq<Token>) {
    exists e :: Reads(t, e)
  }

  lemma WholeReads(t: seq<Token>, e: Expr)
    requires ReadsAs(t, e)
    ensures Reads(t, e) && IsExpression(t)
  {
    assert t + [] == t;
    ReadAt(t, e, []);
    assert ParseAndTail(e, []) == Some((e, []));
    assert ParseAnd(t) == Some((e, []));
    assert ParseOrTail(e, []) == Some((e, []));
    assert Reads(t, e);
  }

  lemma WholeBreaks(t: seq<Token>)
    requires Unreadable(t)
    ensures !IsExpression(t)
  {
    assert t + [] == t;
    assert StopsAtBang(ParseCmp(t + []));
    assert StopsAtBang(ParseAnd(t));
    assert StopsAtBang(ParseOr(t));
  }

  /** The emitted text of a guard, negated or not, is a Lua expression exactly when no condition
  below uses `!=`, which Lua spells `~=`. */
  lemma GuardReadsIffClean(s: Signed)
    requires Wf(s.guard)
    ensures IsExpression(EmitSigned(s)) <==> Clean(s.guard)
    ensures Clean(s.guard) ==> Reads(EmitSigned(s), SignedGuardExpr(s))
  {
    if Clean(s.guard) {
      EmittedReads(s.guard);
      NegatedReads(Emit(s.guard), GuardExpr(s.guard), s.when);
      WholeReads(EmitSigned(s), SignedGuardExpr(s));
    } else {
      EmittedBreaks(s.guard);
      NegatedBreaks(Emit(s.guard), s.when);
      WholeBreaks(EmitSigned(s));
    }
  }

  // ---------- the value of the emitted guard ----------

  function AsValue(b: Option<bool>): Option<Value> {
    match b
    case None => None
    case Some(x) => Some(VBool(x))
  }

  ghost predicate Answers(es: seq<Expr>, answers: seq<Option<bool>>, env: Env, ord: Order) {
    |es| == |answers| && forall i :: 0 <= i < |es| ==> Eval(es[i], env, ord) == AsValue(answers[i])
  }

  lemma {:induction false} EvalChain(conj: bool, l: Expr, es: seq<Expr>, first: Option<bool>, answers: seq<Option<bool>>,
                                     env: Env, ord: Order)
    requires Eval(l, env, ord) == AsValue(first) && Answers(es, answers, env, ord)
    ensures Eval(Chain(conj, l, es), env, ord) == AsValue(Settle(conj, [first] + answers))
    decreases |es|
  {
    assert ([first] + answers)[1..] == answers;
    if es != [] {
      var joined := if conj then EAnd(l, es[0]) else EOr(l, es[0]);
      var settled := if first == Some(conj) then answers[0] else first;
      assert Eval(joined, env, ord) == AsValue(settled);
      EvalChain(conj, joined, es[1..], settled, answers[1..], env, ord);
      assert ([settled] + answers[1..])[1..] == answers[1..];
    }
  }

  lemma EvalChainAll(conj: bool, es: seq<Expr>, answers: seq<Option<bool>>, env: Env, ord: Order)
    requires Answers(es, answers, env, ord)
    ensures Eval(ChainAll(conj, es), env, ord) == AsValue(Settle(conj, answers))
  {
    if es != [] {
      EvalChain(conj, es[0], es[1..], answers[0], answers[1..], env, ord);
      assert [answers[0]] + answers[1..] == answers;
    }
  }

  lemma EvalAnchor(id: string, v: Json, env: Env, ord: Order)
    requires Scalar(v)
    ensures Eval(AnchorExpr(KnobName(id), v), env, ord) == Some(AnchorValue(id, v, env))
  {
    assert Eval(LiteralExpr(v), env, ord) == Some(LiteralValue(v));
  }

  lemma EvalOperand(o: Operand, env: Env, ord: Order)
    requires o.Knob? ==> Scalar(o.value)
    ensures Eval(OperandExpr(o), env, ord) == Some(OperandValue(o, env))
  {
    if o.Knob? {
      EvalAnchor(o.id, o.value, env, ord);
    }
  }

  /** An expanded `in` is membership of the left value in the authored list. */
  lemma EvalIn(g: Guard, env: Env, ord: Order)
    requires g.Test? && g.op == "in" && Wf(g)
    ensures Eval(GuardExpr(g), env, ord) == AsValue(Meaning(g, env, ord))
  {
    var items, es := g.value.items, ArmExprs(g.left, g.value.items);
    var l := OperandValue(g.left, env);
    EvalOperand(g.left, env, ord);
    var answers := seq(|items|, i requires 0 <= i < |items| => Some(l == LiteralValue(items[i])));
    forall i | 0 <= i < |es| ensures Eval(es[i], env, ord) == AsValue(answers[i]) {
      assert Eval(LiteralExpr(items[i]), env, ord) == Some(LiteralValue(items[i]));
    }
    EvalChainAll(false, es, answers, env, ord);
    GateIsConnective(false, answers);
    if exists i :: 0 <= i < |items| && l == LiteralValue(items[i]) {
      var i :| 0 <= i < |items| && l == LiteralValue(items[i]);
      assert answers[i].value;
    }
  }

  /** The expression a guard is emitted as evaluates to the meaning of its node, hot parameters
  included, and raises an error exactly where the meaning has no answer. */
  lemma {:induction false} GuardMeansItsNode(g: Guard, env: Env, ord: Order)
    requires Wf(g) && Clean(g)
    ensures Eval(GuardExpr(g), env, ord) == AsValue(Meaning(g, env, ord))
    decreases g
  {
    match g
    case Test(id, left, op, value) =>
      if op == "in" {
        EvalIn(g, env, ord);
      } else {
        EvalOperand(left, env, ord);
        EvalAnchor(id, value, env, ord);
      }
    case Join(conj, inputs) =>
      var es := GuardExprs(inputs);
      var answers := seq(|inputs|, i requires 0 <= i < |inputs| => SignedMeaning(inputs[i], env, ord));
      forall i | 0 <= i < |inputs| ensures Eval(es[i], env, ord) == AsValue(answers[i]) {
        assert es[i] == SignedGuardExpr(inputs[i]);
        GuardMeansItsNode(inputs[i].guard, env, ord);
      }
      EvalChainAll(conj, es, answers, env, ord);
  }
}
