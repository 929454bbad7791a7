/** The order a compiled blueprint places. */
module BlueprintOrder {
  import opened Wrappers
  import opened BlueprintGraph
  import opened BlueprintStructure
  import opened BlueprintCodegen
  import opened GuardCode
  import opened Lua

  /* The call of a program stated from the action and the guards behind it, and what one run of the
  program, under the collector it carries, comes to. */

  // ---------- the call ----------

  /** A condition on a price field, other than an inequality or a membership. */
  predicate OnPrice(t: Guard) {
    && t.Test? && (t.left == Field("tick.price") || t.left == Field("tick.mid_price"))
    && t.op != "!=" && t.op != "in"
  }

  lemma OnPriceIsPricesOrder(t: Guard)
    requires Wf(t)
    ensures PricesOrder(t) <==> OnPrice(t)
  {
  }

  /** An inherited price is the value side of the guard nearest the action that compares a price field;
  there is none when no guard does.  The guards are listed outermost first. */
  predicate Inherited(price: Option<seq<Token>>, gs: seq<Signed>) {
    match price
    case None => forall i :: 0 <= i < |gs| ==> !OnPrice(gs[i].guard)
    case Some(t) =>
      exists i :: 0 <= i < |gs| && OnPrice(gs[i].guard) && t == Anchor(gs[i].guard.id + "_value", gs[i].guard.value)
                  && forall j :: i < j < |gs| ==> !OnPrice(gs[j].guard)
  }

  /** The call an action asks for: none exactly for a hold, the side of the action, its own price or an
  inherited one, and a budget exactly when it names one. */
  predicate CallFits(call: Option<Call>, action: Node, gs: seq<Signed>) {
    && (call.None? <==> action.nodeType == "action_hold")
    && (call.Some? ==>
          && (call.value.side == "buy" <==> action.nodeType == "action_buy")
          && (call.value.side == "sell" <==> action.nodeType == "action_sell")
          && (call.value.budget.Some? <==> "budget_ratio" in action.params)
          && (call.value.budget.Some? ==> call.value.budget.value == Anchor(action.id + "_budget_ratio", action.params["budget_ratio"]))
          && if "price" in action.params then call.value.price == Some(Anchor(action.id + "_price", action.params["price"]))
             else Inherited(call.value.price, gs))
  }

  /** Every compiled program has the call its one wired action asks for. */
  lemma CompiledCallFits(bp: Blueprint, g: Graph, p: Program, action: Node, chain: seq<(Id, bool)>, trees: map<Id, Guard>)
    requires Compiled(bp, g, p, action, chain, trees)
    ensures forall k :: 0 <= k < |chain| ==> chain[k].0 in trees
    ensures CallFits(p.call, action, ChainGuards(chain, trees))
  {
    hide Tabled, WholeTrail, ChainGuards, StepsOf, OnPrice, WiredAction;
    StepsAreChain(bp, g, p.steps, chain, trees);
    var gs := ChainGuards(chain, trees);
    if p.call.Some? && "price" !in action.params {
      NearestIsInherited(p.steps, gs);
    }
  }

  lemma NearestIsInherited(steps: seq<Step>, gs: seq<Signed>)
    requires StepsAre(steps, gs)
    ensures Inherited(NearestPrice(Reverse(steps)), gs)
  {
    hide PricesOrder, OnPrice, NearestPrice, Emit, Wf;
    forall i | 0 <= i < |gs| ensures PricesOrder(gs[i].guard) <==> OnPrice(gs[i].guard) {
      OnPriceIsPricesOrder(gs[i].guard);
    }
    var back := Reverse(gs);
    var k := InheritedPrice(Reverse(steps), back);
    var n := |gs|;
    forall j | n - 1 - k < j < n ensures !OnPrice(gs[j].guard) {
      assert back[n - 1 - j] == gs[j];
    }
    if k < n {
      assert back[k] == gs[n - 1 - k];
    }
  }

  // ---------- one run ----------

  /** The value of a text: nothing when it is not one expression, or raises an error. */
  function Reading(t: seq<Token>, env: Env, ord: Order): Option<Value> {
    match ParseOr(t)
    case None => None
    case Some((e, rest)) => if rest == [] then Eval(e, env, ord) else None
  }

  function IsNumber(v: Option<Value>): bool {
    v.Some? && v.value.VNum?
  }

  const BALANCE := "tick.available_balance"

  /** One run of the program for one token: the price of the row the collector takes, `Some(None)` when it
  takes none, and nothing on a Lua error.  The collector takes an order when its side is "buy" and its price
  is a number; the budget is a product with the balance, so it raises an error unless both are numbers. */
  function Collected(p: Program, env: Env, ord: Order): Option<Option<real>> {
    match Fires(p.steps, env, ord)
    case None => None
    case Some(reached) =>
      if !reached || p.call.None? then Some(None)
      else
        var c := p.call.value;
        var price := if c.price.Some? then Reading(c.price.value, env, ord) else Some(VNil);
        if c.budget.Some? && !(BALANCE in env.vars && env.vars[BALANCE].VNum? && IsNumber(Reading(c.budget.value, env, ord))) then None
        else if price.None? then None
        else Some(if c.side == "buy" && price.value.VNum? then Some(price.value.n) else None)
  }

  /** A number of the action: its hot parameter, or the authored one. */
  function OwnNumber(action: Node, param: string, env: Env): real
    requires param in action.params && action.params[param].JNum?
  {
    var name := action.id + "_" + param;
    if name in env.hot then env.hot[name] else action.params[param].n
  }

  /** The limit an inherited price comes to: nothing without a price condition, or when the nearest one
  compares with something that is not a number. */
  function InheritedLimit(gs: seq<Signed>, env: Env): Option<real> {
    if gs == [] then None
    else
      var c := gs[|gs| - 1].guard;
      if !OnPrice(c) then InheritedLimit(gs[..|gs| - 1], env)
      else if c.value.JNum? then Some(if c.id + "_value" in env.hot then env.hot[c.id + "_value"] else c.value.n)
      else None
  }

  function Limit(action: Node, gs: seq<Signed>, env: Env): Option<real>
    requires "price" in action.params ==> action.params["price"].JNum?
  {
    if "price" in action.params then Some(OwnNumber(action, "price", env)) else InheritedLimit(gs, env)
  }

  lemma AnchorReading(name: string, v: Json, env: Env, ord: Order)
    requires Scalar(v)
    ensures Reading(Anchor(name, v), env, ord) ==
            Some(if v.JNum? then VNum(if name in env.hot then env.hot[name] else v.n) else LiteralValue(v))
  {
    var t, e := Anchor(name, v), AnchorExpr(name, v);
    assert t + [] == t;
    ParseAnchor(name, v, []);
    assert ParseCmp(t) == Some((e, []));
    assert ParseAnd(t) == Some((e, []));
    assert ParseOr(t) == Some((e, []));
    assert Eval(LiteralExpr(v), env, ord) == Some(LiteralValue(v));
  }

  lemma {:induction false} NearestLimit(gs: seq<Signed>, i: nat, env: Env)
    requires i < |gs| && OnPrice(gs[i].guard) && forall j :: i < j < |gs| ==> !OnPrice(gs[j].guard)
    ensures InheritedLimit(gs, env) == InheritedLimit(gs[..i + 1], env)
    decreases |gs|
  {
    if i + 1 == |gs| {
      assert gs[..i + 1] == gs;
    } else {
      var init := gs[..|gs| - 1];
      NearestLimit(init, i, env);
      assert init[..i + 1] == gs[..i + 1];
    }
  }

  lemma {:induction false} NoLimit(gs: seq<Signed>, env: Env)
    requires forall j :: 0 <= j < |gs| ==> !OnPrice(gs[j].guard)
    ensures InheritedLimit(gs, env) == None
  {
    if gs != [] {
      NoLimit(gs[..|gs| - 1], env);
    }
  }

  /** What the price of a call reads. */
  lemma PriceReading(call: Call, action: Node, gs: seq<Signed>, env: Env, ord: Order)
    requires CallFits(Some(call), action, gs) && ActionParams(action) && forall i :: 0 <= i < |gs| ==> Wf(gs[i].guard)
    ensures call.price.None? ==> Limit(action, gs, env) == None
    ensures call.price.Some? ==>
              var v := Reading(call.price.value, env, ord);
              v.Some? && Limit(action, gs, env) == if v.value.VNum? then Some(v.value.n) else None
  {
    hide Reading, Anchor;
    if "price" in action.params {
      AnchorReading(action.id + "_price", action.params["price"], env, ord);
      assert action.id + "_" + "price" == action.id + "_price";
    } else if call.price.None? {
      NoLimit(gs, env);
    } else {
      var i :| 0 <= i < |gs| && OnPrice(gs[i].guard) && call.price.value == Anchor(gs[i].guard.id + "_value", gs[i].guard.value)
               && forall j :: i < j < |gs| ==> !OnPrice(gs[j].guard);
      var c := gs[i].guard;
      assert Wf(c) && c.op != "in";
      AnchorReading(c.id + "_value", c.value, env, ord);
      NearestLimit(gs, i, env);
      assert gs[..i + 1][i] == gs[i];
    }
  }

  lemma BudgetReading(call: Call, action: Node, gs: seq<Signed>, env: Env, ord: Order)
    requires CallFits(Some(call), action, gs) && ActionParams(action) && call.budget.Some?
    ensures Reading(call.budget.value, env, ord) == Some(VNum(OwnNumber(action, "budget_ratio", env)))
  {
    hide Reading, Anchor;
    AnchorReading(action.id + "_budget_ratio", action.params["budget_ratio"], env, ord);
    assert action.id + "_" + "budget_ratio" == action.id + "_budget_ratio";
  }

  /** A program that loads, run for one token with a balance that is a number: it collects an order exactly
  when every guard on the chain holds, the action is a buy and there is a limit to buy at, and that limit is
  the price of the order.  It fails exactly where a guard compares values that have no order. */
  lemma OrderIffChainHoldsAndBuys(bp: Blueprint, g: Graph, p: Program, action: Node, chain: seq<(Id, bool)>, trees: map<Id, Guard>,
                                  env: Env, ord: Order)
    requires Compiled(bp, g, p, action, chain, trees) && ActionParams(action) && AllLoad(p.steps)
    requires BALANCE in env.vars && env.vars[BALANCE].VNum?
    ensures forall k :: 0 <= k < |chain| ==> chain[k].0 in trees
    ensures var gs := ChainGuards(chain, trees);
            var holds := Meaning(Join(true, gs), env, ord);
            && (Collected(p, env, ord) == None <==> holds == None)
            && forall x :: Collected(p, env, ord) == Some(Some(x)) <==>
                             holds == Some(true) && action.nodeType == "action_buy" && Limit(action, gs, env) == Some(x)
  {
    hide Meaning, Fires, AllLoad, Compiled, ChainGuards, Reading, Limit, AllClean, OwnNumber, BALANCE;
    CompiledCallFits(bp, g, p, action, chain, trees);
    ProgramMeansItsChain(bp, g, p, action, chain, trees);
    CompiledStepsAre(bp, g, p, action, chain, trees);
    var gs := ChainGuards(chain, trees);
    assert Fires(p.steps, env, ord) == Meaning(Join(true, gs), env, ord);
    if p.call.Some? {
      PriceReading(p.call.value, action, gs, env, ord);
      if p.call.value.budget.Some? {
        BudgetReading(p.call.value, action, gs, env, ord);
      }
    }
  }

  lemma CompiledStepsAre(bp: Blueprint, g: Graph, p: Program, action: Node, chain: seq<(Id, bool)>, trees: map<Id, Guard>)
    requires Compiled(bp, g, p, action, chain, trees)
    ensures (forall k :: 0 <= k < |chain| ==> chain[k].0 in trees) && StepsAre(p.steps, ChainGuards(chain, trees))
  {
    StepsAreChain(bp, g, p.steps, chain, trees);
  }
}
