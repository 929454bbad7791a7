/** The graph algorithms of `blueprint.rs`. */
module BlueprintGraph {
  import opened Wrappers

  /* The iterative three-colour depth-first search, Kahn's topological order, and the bottom-up depth
  pass, each against the notion of path it is for. */

  type Id = string

  /** Outgoing edges of each node that has some, in authoring order, with their polarity. */
  type Outgoing = map<Id, seq<(Id, bool)>>

  function Outs(out: Outgoing, u: Id): seq<(Id, bool)> {
    if u in out then out[u] else []
  }

  ghost predicate Edge(out: Outgoing, u: Id, v: Id) {
    exists k :: 0 <= k < |Outs(out, u)| && Outs(out, u)[k].0 == v
  }

  predicate Distinct(s: seq<Id>) {
    forall i, j :: 0 <= i < j < |s| ==> s[i] != s[j]
  }

  /** Every edge joins two of the nodes. */
  ghost predicate Closed(nodes: seq<Id>, out: Outgoing) {
    && (forall u :: u in out ==> u in nodes)
    && (forall u, k :: u in out && 0 <= k < |out[u]| ==> out[u][k].0 in nodes)
  }

  /** A walk along edges, by its nodes. */
  ghost predicate Path(out: Outgoing, p: seq<Id>) {
    |p| >= 1 && forall i :: 0 <= i < |p| - 1 ==> Edge(out, p[i], p[i + 1])
  }

  ghost predicate Cycle(out: Outgoing, p: seq<Id>) {
    Path(out, p) && |p| >= 2 && p[0] == p[|p| - 1]
  }

  ghost predicate Acyclic(out: Outgoing) {
    forall p :: !Cycle(out, p)
  }

  // ---------- orders ----------

  /** Every edge out of a listed node leads to a node listed before it. */
  ghost predicate ChildrenFirst(out: Outgoing, done: seq<Id>) {
    forall i, k :: 0 <= i < |done| && 0 <= k < |Outs(out, done[i])| ==> Outs(out, done[i])[k].0 in done[..i]
  }

  /** Along a path through a children-first list, positions only go down. */
  lemma {:induction false} PathDescends(out: Outgoing, done: seq<Id>, p: seq<Id>, i: nat)
    requires Distinct(done) && ChildrenFirst(out, done) && Path(out, p)
    requires i < |done| && done[i] == p[0]
    ensures exists j :: 0 <= j <= i - (|p| - 1) && done[j] == p[|p| - 1]
    decreases |p|
  {
    if |p| > 1 {
      assert Edge(out, p[0], p[1]);
      var k :| 0 <= k < |Outs(out, p[0])| && Outs(out, p[0])[k].0 == p[1];
      assert p[1] in done[..i];
      var j :| 0 <= j < i && done[j] == p[1];
      var q := p[1..];
      forall m | 0 <= m < |q| - 1 ensures Edge(out, q[m], q[m + 1]) {
        assert Edge(out, p[m + 1], p[m + 2]);
      }
      PathDescends(out, done, q, j);
    }
  }

  lemma ChildrenFirstIsAcyclic(nodes: seq<Id>, out: Outgoing, done: seq<Id>)
    requires Closed(nodes, out) && Distinct(done) && ChildrenFirst(out, done)
    requires forall n :: n in nodes ==> n in done
    ensures Acyclic(out)
  {
    forall p | Cycle(out, p) ensures false {
      assert Edge(out, p[0], p[1]);
      var i :| 0 <= i < |done| && done[i] == p[0];
      PathDescends(out, done, p, i);
    }
  }

  // ---------- depth-first search ----------

  datatype Colour = White | Grey | Black

  predicate IsColour(colour: map<Id, Colour>, n: Id, c: Colour) {
    n in colour && colour[n] == c
  }

  /** The first `k` children of a node are finished. */
  ghost predicate FinishedBefore(out: Outgoing, colour: map<Id, Colour>, id: Id, k: nat) {
    k <= |Outs(out, id)| && forall m :: 0 <= m < k ==> IsColour(colour, Outs(out, id)[m].0, Black)
  }

  /** An entry that waits for child `next`, its last one looked at. */
  ghost predicate WaitsFor(out: Outgoing, colour: map<Id, Colour>, e: (Id, nat), next: Id) {
    e.1 >= 1 && FinishedBefore(out, colour, e.0, e.1 - 1) && e.1 <= |Outs(out, e.0)| && Outs(out, e.0)[e.1 - 1].0 == next
  }

  /** The explicit stack: each entry waits for the one above it. */
  ghost predicate StackInv(out: Outgoing, colour: map<Id, Colour>, stack: seq<(Id, nat)>) {
    && (forall i :: 0 <= i < |stack| ==> IsColour(colour, stack[i].0, Grey))
    && (forall i, j :: 0 <= i < j < |stack| ==> stack[i].0 != stack[j].0)
    && (forall i, j :: 0 <= i < |stack| && j == i + 1 && j < |stack| ==> WaitsFor(out, colour, stack[i], stack[j].0))
    && (stack != [] ==> FinishedBefore(out, colour, stack[|stack| - 1].0, stack[|stack| - 1].1))
  }

  predicate OnStack(stack: seq<(Id, nat)>, n: Id) {
    exists i :: 0 <= i < |stack| && stack[i].0 == n
  }

  ghost predicate GreyInv(colour: map<Id, Colour>, stack: seq<(Id, nat)>) {
    forall n :: IsColour(colour, n, Grey) ==> OnStack(stack, n)
  }

  ghost predicate DoneInv(out: Outgoing, colour: map<Id, Colour>, done: seq<Id>) {
    && (forall n :: n in done <==> IsColour(colour, n, Black))
    && Distinct(done) && ChildrenFirst(out, done)
  }

  ghost predicate ColourInv(nodes: seq<Id>, out: Outgoing, colour: map<Id, Colour>, stack: seq<(Id, nat)>, done: seq<Id>) {
    && colour.Keys == (set n | n in nodes)
    && StackInv(out, colour, stack) && GreyInv(colour, stack) && DoneInv(out, colour, done)
  }

  function Whites(colour: map<Id, Colour>): set<Id> {
    set n | n in colour && colour[n] == White
  }

  ghost function StackPath(stack: seq<(Id, nat)>): seq<Id> {
    seq(|stack|, i requires 0 <= i < |stack| => stack[i].0)
  }

  /** A grey child closes a cycle through the stack. */
  lemma GreyChildClosesCycle(out: Outgoing, colour: map<Id, Colour>, stack: seq<(Id, nat)>, i: nat, child: Id)
    requires StackInv(out, colour, stack) && i < |stack| && stack[i].0 == child
    requires Edge(out, stack[|stack| - 1].0, child)
    ensures exists p :: Cycle(out, p) && child in p
  {
    var p := StackPath(stack)[i..] + [child];
    forall m | 0 <= m < |p| - 1 ensures Edge(out, p[m], p[m + 1]) {
      if i + m < |stack| - 1 {
        assert WaitsFor(out, colour, stack[i + m], stack[i + m + 1].0);
      }
    }
    assert Cycle(out, p);
  }

  lemma PushRoot(nodes: seq<Id>, out: Outgoing, colour: map<Id, Colour>, done: seq<Id>, root: Id)
    requires ColourInv(nodes, out, colour, [], done) && IsColour(colour, root, White)
    ensures ColourInv(nodes, out, colour[root := Grey], [(root, 0)], done)
    ensures Whites(colour[root := Grey]) <= Whites(colour)
  {
    var stack := [(root, 0)];
    assert stack[0].0 == root;
    forall n | IsColour(colour[root := Grey], n, Grey) ensures OnStack(stack, n) {
      assert n != root ==> IsColour(colour, n, Grey);
    }
    assert forall n :: IsColour(colour[root := Grey], n, Black) <==> IsColour(colour, n, Black);
  }

  /** Finishing a node hurts no stack below it. */
  lemma StackBelow(out: Outgoing, colour: map<Id, Colour>, below: seq<(Id, nat)>, id: Id, k: nat)
    requires StackInv(out, colour, below + [(id, k)])
    ensures StackInv(out, colour[id := Black], below)
  {
    var stack, colour' := below + [(id, k)], colour[id := Black];
    assert stack[|below|] == (id, k);
    forall i | 0 <= i < |below| ensures IsColour(colour', below[i].0, Grey) && below[i].0 != id {
      assert stack[i] == below[i] && IsColour(colour, stack[i].0, Grey);
    }
    forall e: Id, m: nat | FinishedBefore(out, colour, e, m) ensures FinishedBefore(out, colour', e, m) {
      assert forall l :: 0 <= l < m ==> IsColour(colour, Outs(out, e)[l].0, Black);
    }
    forall i, j | 0 <= i < |below| && j == i + 1 && j < |below| ensures WaitsFor(out, colour', below[i], below[j].0) {
      assert WaitsFor(out, colour, stack[i], stack[j].0);
    }
    assert forall i :: 0 <= i < |below| ==> stack[i] == below[i];
    if below != [] {
      var t := |below| - 1;
      assert WaitsFor(out, colour, stack[t], stack[t + 1].0);
    }
  }

  lemma GreyBelow(colour: map<Id, Colour>, below: seq<(Id, nat)>, id: Id, k: nat)
    requires GreyInv(colour, below + [(id, k)])
    ensures GreyInv(colour[id := Black], below)
  {
    var stack := below + [(id, k)];
    forall n | IsColour(colour[id := Black], n, Grey) ensures OnStack(below, n) {
      assert IsColour(colour, n, Grey);
      var i :| 0 <= i < |stack| && stack[i].0 == n;
      assert below[i].0 == n;
    }
  }

  lemma ChildrenFirstMore(out: Outgoing, done: seq<Id>, id: Id)
    requires ChildrenFirst(out, done)
    requires forall k :: 0 <= k < |Outs(out, id)| ==> Outs(out, id)[k].0 in done
    ensures ChildrenFirst(out, done + [id])
  {
    var done' := done + [id];
    forall i, k | 0 <= i < |done'| && 0 <= k < |Outs(out, done'[i])| ensures Outs(out, done'[i])[k].0 in done'[..i] {
      if i < |done| {
        assert done'[..i] == done[..i];
        assert done'[i] == done[i];
      } else {
        assert done'[..i] == done;
      }
    }
  }

  lemma DoneMore(out: Outgoing, colour: map<Id, Colour>, done: seq<Id>, id: Id)
    requires DoneInv(out, colour, done) && IsColour(colour, id, Grey)
    requires FinishedBefore(out, colour, id, |Outs(out, id)|)
    ensures DoneInv(out, colour[id := Black], done + [id])
  {
    forall n ensures n in done + [id] <==> IsColour(colour[id := Black], n, Black) {
      assert n in done <==> IsColour(colour, n, Black);
    }
    forall k | 0 <= k < |Outs(out, id)| ensures Outs(out, id)[k].0 in done {
      assert IsColour(colour, Outs(out, id)[k].0, Black);
    }
    ChildrenFirstMore(out, done, id);
    assert id !in done;
  }

  /** All children looked at: the node is finished, after every one of them. */
  lemma Pop(nodes: seq<Id>, out: Outgoing, colour: map<Id, Colour>, below: seq<(Id, nat)>, id: Id, k: nat, done: seq<Id>)
    requires ColourInv(nodes, out, colour, below + [(id, k)], done) && k >= |Outs(out, id)|
    ensures ColourInv(nodes, out, colour[id := Black], below, done + [id])
    ensures Whites(colour[id := Black]) == Whites(colour)
  {
    var stack := below + [(id, k)];
    assert stack[|below|] == (id, k);
    assert IsColour(colour, stack[|below|].0, Grey);
    StackBelow(out, colour, below, id, k);
    GreyBelow(colour, below, id, k);
    DoneMore(out, colour, done, id);
  }

  /** A finished child: on to the next one. */
  lemma Skip(nodes: seq<Id>, out: Outgoing, colour: map<Id, Colour>, below: seq<(Id, nat)>, id: Id, k: nat, done: seq<Id>)
    requires ColourInv(nodes, out, colour, below + [(id, k)], done)
    requires k < |Outs(out, id)| && IsColour(colour, Outs(out, id)[k].0, Black)
    ensures ColourInv(nodes, out, colour, below + [(id, k + 1)], done)
  {
    var stack, moved := below + [(id, k)], below + [(id, k + 1)];
    assert stack[|below|] == (id, k) && moved[|below|] == (id, k + 1);
    assert forall i :: 0 <= i < |below| ==> moved[i] == stack[i];
    assert forall i :: 0 <= i < |moved| ==> moved[i].0 == stack[i].0;
    forall i, j | 0 <= i < |moved| && j == i + 1 && j < |moved| ensures WaitsFor(out, colour, moved[i], moved[j].0) {
      assert WaitsFor(out, colour, stack[i], stack[j].0);
    }
    forall n | IsColour(colour, n, Grey) ensures OnStack(moved, n) {
      var i :| 0 <= i < |stack| && stack[i].0 == n;
      assert moved[i].0 == n;
    }
  }

  lemma StackAbove(out: Outgoing, colour: map<Id, Colour>, below: seq<(Id, nat)>, id: Id, k: nat, child: Id)
    requires StackInv(out, colour, below + [(id, k)])
    requires k < |Outs(out, id)| && Outs(out, id)[k].0 == child && IsColour(colour, child, White)
    ensures StackInv(out, colour[child := Grey], below + [(id, k + 1)] + [(child, 0)])
  {
    var stack, pushed, colour' := below + [(id, k)], below + [(id, k + 1)] + [(child, 0)], colour[child := Grey];
    var t := |below|;
    assert stack[t] == (id, k) && pushed[t] == (id, k + 1) && pushed[t + 1] == (child, 0);
    assert forall i :: 0 <= i < t ==> pushed[i] == stack[i];
    forall i | 0 <= i <= t ensures pushed[i].0 == stack[i].0 && pushed[i].0 != child && IsColour(colour', pushed[i].0, Grey) {
      assert IsColour(colour, stack[i].0, Grey);
    }
    forall e: Id, m: nat | FinishedBefore(out, colour, e, m) ensures FinishedBefore(out, colour', e, m) {
      assert forall l :: 0 <= l < m ==> IsColour(colour, Outs(out, e)[l].0, Black);
    }
    forall i, j | 0 <= i < |pushed| && j == i + 1 && j < |pushed| ensures WaitsFor(out, colour', pushed[i], pushed[j].0) {
      if i < t {
        assert WaitsFor(out, colour, stack[i], stack[j].0);
      }
    }
  }

  /** An untouched child: it goes on top, and the node waits for it. */
  lemma Push(nodes: seq<Id>, out: Outgoing, colour: map<Id, Colour>, below: seq<(Id, nat)>, id: Id, k: nat, done: seq<Id>, child: Id)
    requires ColourInv(nodes, out, colour, below + [(id, k)], done)
    requires k < |Outs(out, id)| && Outs(out, id)[k].0 == child && IsColour(colour, child, White)
    ensures ColourInv(nodes, out, colour[child := Grey], below + [(id, k + 1)] + [(child, 0)], done)
    ensures Whites(colour[child := Grey]) < Whites(colour)
  {
    var stack, pushed := below + [(id, k)], below + [(id, k + 1)] + [(child, 0)];
    StackAbove(out, colour, below, id, k, child);
    assert pushed[|stack|].0 == child;
    forall n | IsColour(colour[child := Grey], n, Grey) ensures OnStack(pushed, n) {
      if n != child {
        assert IsColour(colour, n, Grey);
        var i :| 0 <= i < |stack| && stack[i].0 == n;
        assert pushed[i].0 == n;
      }
    }
    assert forall n :: IsColour(colour[child := Grey], n, Black) <==> IsColour(colour, n, Black);
    assert child in Whites(colour) && child !in Whites(colour[child := Grey]);
  }

  lemma GreyMeansCycle(out: Outgoing, colour: map<Id, Colour>, stack: seq<(Id, nat)>, child: Id)
    requires StackInv(out, colour, stack) && GreyInv(colour, stack) && stack != []
    requires Edge(out, stack[|stack| - 1].0, child) && IsColour(colour, child, Grey)
    ensures exists p :: Cycle(out, p) && child in p
  {
    var i :| 0 <= i < |stack| && stack[i].0 == child;
    GreyChildClosesCycle(out, colour, stack, i, child);
  }

  /** Three-colour depth-first search with an explicit stack: it accepts exactly the acyclic
  graphs, and a node it names lies on a cycle. */
  method DetectCycle(nodes: seq<Id>, out: Outgoing) returns (r: Result<(), Id>)
    requires Closed(nodes, out)
    ensures r.Ok? <==> Acyclic(out)
    ensures r.Err? ==> exists p :: Cycle(out, p) && r.error in p
  {
    var colour := map n | n in nodes :: White;
    ghost var done: seq<Id> := [];
    for i := 0 to |nodes|
      invariant ColourInv(nodes, out, colour, [], done)
      invariant forall j :: 0 <= j < i ==> IsColour(colour, nodes[j], Black)
    {
      var root := nodes[i];
      if colour[root] == White {
        var bad;
        colour, done, bad := Explore(nodes, out, colour, done, root);
        if bad.Some? {
          return Err(bad.value);
        }
      } else {
        assert !IsColour(colour, root, Grey);
      }
    }
    ChildrenFirstIsAcyclic(nodes, out, done);
    return Ok(());
  }

  function Remaining(out: Outgoing, stack: seq<(Id, nat)>): int {
    if stack == [] then 0 else |Outs(out, stack[|stack| - 1].0)| - stack[|stack| - 1].1
  }

  /** Fewer white nodes, else a shorter stack, else fewer children left on top of it. */
  ghost predicate Progress(out: Outgoing, colour0: map<Id, Colour>, stack0: seq<(Id, nat)>,
                           colour: map<Id, Colour>, stack: seq<(Id, nat)>) {
    Whites(colour) < Whites(colour0) ||
    (Whites(colour) == Whites(colour0) &&
     (|stack| < |stack0| || (|stack| == |stack0| && Remaining(out, stack) < Remaining(out, stack0))))
  }

  /** The top of the stack looks at its next child. */
  method LookAtChild(nodes: seq<Id>, out: Outgoing, colour0: map<Id, Colour>,
                     below: seq<(Id, nat)>, id: Id, k: nat, ghost done: seq<Id>)
    returns (colour: map<Id, Colour>, stack: seq<(Id, nat)>, bad: Option<Id>)
    requires Closed(nodes, out) && ColourInv(nodes, out, colour0, below + [(id, k)], done) && k < |Outs(out, id)|
    ensures bad.Some? ==> exists p :: Cycle(out, p) && bad.value in p
    ensures bad.None? ==> ColourInv(nodes, out, colour, stack, done) && below + [(id, k + 1)] <= stack
    ensures bad.None? ==> forall n :: IsColour(colour0, n, Black) ==> IsColour(colour, n, Black)
    ensures bad.None? ==> Progress(out, colour0, below + [(id, k)], colour, stack)
  {
    var child := Outs(out, id)[k].0;
    assert child in nodes;
    colour, stack, bad := colour0, below + [(id, k + 1)], None;
    match colour[child] {
      case Grey =>
        GreyMeansCycle(out, colour, below + [(id, k)], child);
        bad := Some(child);
      case White =>
        Push(nodes, out, colour, below, id, k, done, child);
        colour := colour[child := Grey];
        stack := stack + [(child, 0)];
      case Black =>
        Skip(nodes, out, colour, below, id, k, done);
    }
  }

  /** One round of the search: finish the top, or look at its next child. */
  method SearchStep(nodes: seq<Id>, out: Outgoing, colour0: map<Id, Colour>, stack0: seq<(Id, nat)>, ghost done0: seq<Id>)
    returns (colour: map<Id, Colour>, stack: seq<(Id, nat)>, ghost done: seq<Id>, bad: Option<Id>)
    requires Closed(nodes, out) && ColourInv(nodes, out, colour0, stack0, done0) && stack0 != []
    ensures bad.Some? ==> exists p :: Cycle(out, p) && bad.value in p
    ensures bad.None? ==> ColourInv(nodes, out, colour, stack, done)
    ensures bad.None? ==> forall n :: IsColour(colour0, n, Black) ==> IsColour(colour, n, Black)
    ensures bad.None? ==> if stack == [] then IsColour(colour, stack0[0].0, Black) else stack[0].0 == stack0[0].0
    ensures bad.None? ==> Progress(out, colour0, stack0, colour, stack)
  {
    var below := stack0[..|stack0| - 1];
    var (id, childIdx) := stack0[|stack0| - 1];
    assert stack0 == below + [(id, childIdx)];
    done, bad := done0, None;
    if childIdx >= |Outs(out, id)| {
      Pop(nodes, out, colour0, below, id, childIdx, done);
      colour, stack, done := colour0[id := Black], below, done + [id];
    } else {
      colour, stack, bad := LookAtChild(nodes, out, colour0, below, id, childIdx, done0);
    }
  }

  /** The search from one root. */
  method Explore(nodes: seq<Id>, out: Outgoing, colour0: map<Id, Colour>, ghost done0: seq<Id>, root: Id)
    returns (colour: map<Id, Colour>, ghost done: seq<Id>, bad: Option<Id>)
    requires Closed(nodes, out) && ColourInv(nodes, out, colour0, [], done0) && IsColour(colour0, root, White)
    ensures bad.None? ==>
              && ColourInv(nodes, out, colour, [], done)
              && IsColour(colour, root, Black)
              && forall n :: IsColour(colour0, n, Black) ==> IsColour(colour, n, Black)
    ensures bad.Some? ==> exists p :: Cycle(out, p) && bad.value in p
  {
    PushRoot(nodes, out, colour0, done0, root);
    var stack: seq<(Id, nat)> := [(root, 0)];
    colour, done, bad := colour0[root := Grey], done0, None;
    while stack != [] && bad.None?
      invariant bad.Some? ==> exists p :: Cycle(out, p) && bad.value in p
      invariant bad.None? ==> ColourInv(nodes, out, colour, stack, done)
      invariant bad.None? ==> forall n :: IsColour(colour0, n, Black) ==> IsColour(colour, n, Black)
      invariant bad.None? ==> if stack == [] then IsColour(colour, root, Black) else stack[0].0 == root
      decreases bad.None?, Whites(colour), |stack|, Remaining(out, stack)
    {
      colour, stack, done, bad := SearchStep(nodes, out, colour, stack, done);
    }
  }

  // ---------- topological order ----------

  /** How many of these edges lead to `v`. */
  function Count(outs: seq<(Id, bool)>, v: Id): nat {
    if outs == [] then 0 else Count(outs[..|outs| - 1], v) + if outs[|outs| - 1].0 == v then 1 else 0
  }

  /** How many edges lead from the listed nodes to `v`. */
  function CountFrom(out: Outgoing, us: seq<Id>, v: Id): nat {
    if us == [] then 0 else CountFrom(out, us[..|us| - 1], v) + Count(Outs(out, us[|us| - 1]), v)
  }

  lemma {:induction false} CountPositive(outs: seq<(Id, bool)>, v: Id, k: nat)
    requires k < |outs| && outs[k].0 == v
    ensures Count(outs, v) > 0
  {
    if k < |outs| - 1 {
      CountPositive(outs[..|outs| - 1], v, k);
    }
  }

  lemma {:induction false} CountWitness(outs: seq<(Id, bool)>, v: Id) returns (k: nat)
    requires Count(outs, v) > 0
    ensures k < |outs| && outs[k].0 == v
  {
    if outs[|outs| - 1].0 == v {
      k := |outs| - 1;
    } else {
      k := CountWitness(outs[..|outs| - 1], v);
    }
  }

  lemma {:induction false} CountFromWitness(out: Outgoing, us: seq<Id>, v: Id) returns (u: Id)
    requires CountFrom(out, us, v) > 0
    ensures u in us && Edge(out, u, v)
  {
    var last := us[|us| - 1];
    if Count(Outs(out, last), v) > 0 {
      var k := CountWitness(Outs(out, last), v);
      u := last;
    } else {
      u := CountFromWitness(out, us[..|us| - 1], v);
    }
  }

  lemma {:induction false} CountFromRemove(out: Outgoing, us: seq<Id>, i: nat, v: Id)
    requires i < |us|
    ensures CountFrom(out, us, v) == CountFrom(out, us[..i] + us[i + 1..], v) + Count(Outs(out, us[i]), v)
    decreases |us|
  {
    var rest := us[..i] + us[i + 1..];
    if i == |us| - 1 {
      assert rest == us[..i];
    } else {
      assert rest[..|rest| - 1] == us[..|us| - 1][..i] + us[..|us| - 1][i + 1..];
      assert rest[|rest| - 1] == us[|us| - 1];
      CountFromRemove(out, us[..|us| - 1], i, v);
    }
  }

  /** Distinct nodes among others account for no more edges than all of them together, and for
  as many only when every other node accounts for none. */
  lemma {:induction false} CountFromSubset(out: Outgoing, part: seq<Id>, all: seq<Id>, v: Id)
    requires Distinct(part) && Distinct(all) && forall u :: u in part ==> u in all
    ensures CountFrom(out, part, v) <= CountFrom(out, all, v)
    ensures CountFrom(out, part, v) == CountFrom(out, all, v) ==>
              forall u :: u in all && u !in part ==> Count(Outs(out, u), v) == 0
    decreases |all|
  {
    assert |part| > 0 ==> part[0] in part;
    if all != [] {
      var u := all[|all| - 1];
      var all' := all[..|all| - 1];
      if u in part {
        var i :| 0 <= i < |part| && part[i] == u;
        var part' := part[..i] + part[i + 1..];
        CountFromRemove(out, part, i, v);
        forall x | x in part' ensures x in all' && x != u {
          assert x in part;
        }
        CountFromSubset(out, part', all', v);
        forall x | x in all && x !in part ensures x in all' && x !in part' {
        }
      } else {
        forall x | x in part ensures x in all' {
          assert x in all;
        }
        CountFromSubset(out, part, all', v);
      }
    }
  }

  lemma {:induction false} CountPrefix(outs: seq<(Id, bool)>, k: nat, v: Id)
    requires k <= |outs|
    ensures Count(outs[..k], v) <= Count(outs, v)
    ensures k < |outs| ==> Count(outs[..k + 1], v) == Count(outs[..k], v) + if outs[k].0 == v then 1 else 0
    decreases |outs| - k
  {
    if k < |outs| {
      assert outs[..k + 1][..k] == outs[..k];
      CountPrefix(outs, k + 1, v);
    } else {
      assert outs[..k] == outs;
    }
  }

  /** Every predecessor of a queued node is queued before it. */
  ghost predicate Forward(out: Outgoing, queue: seq<Id>) {
    forall j, u :: 0 <= j < |queue| && Edge(out, u, queue[j]) ==> u in queue[..j]
  }

  /** Kahn's bookkeeping: indegrees count the edges not yet relaxed; `partial` are the edges of
  the node being relaxed that already have been. */
  ghost predicate Balanced(nodes: seq<Id>, out: Outgoing, indegree: map<Id, nat>, done: seq<Id>, partial: seq<(Id, bool)>) {
    && indegree.Keys == (set n | n in nodes)
    && forall v :: v in nodes ==> indegree[v] + CountFrom(out, done, v) + Count(partial, v) == CountFrom(out, nodes, v)
  }

  /** A node is queued exactly when no edge into it is left. */
  ghost predicate Queued(nodes: seq<Id>, indegree: map<Id, nat>, queue: seq<Id>) {
    && Distinct(queue) && (forall u :: u in queue ==> u in nodes)
    && forall v :: v in nodes && v in indegree ==> (v in queue <==> indegree[v] == 0)
  }

  ghost predicate Kahn(nodes: seq<Id>, out: Outgoing, indegree: map<Id, nat>, queue: seq<Id>, pos: nat, partial: seq<(Id, bool)>) {
    pos <= |queue| && Balanced(nodes, out, indegree, queue[..pos], partial) && Queued(nodes, indegree, queue) && Forward(out, queue)
  }

  method CountChildren(nodes: seq<Id>, indegree0: map<Id, nat>, outs: seq<(Id, bool)>) returns (indegree: map<Id, nat>)
    requires indegree0.Keys == (set n | n in nodes) && forall k :: 0 <= k < |outs| ==> outs[k].0 in nodes
    ensures indegree.Keys == indegree0.Keys
    ensures forall v :: v in nodes ==> indegree[v] == indegree0[v] + Count(outs, v)
  {
    indegree := indegree0;
    for k := 0 to |outs|
      invariant indegree.Keys == indegree0.Keys
      invariant forall v :: v in nodes ==> indegree[v] == indegree0[v] + Count(outs[..k], v)
    {
      var to := outs[k].0;
      indegree := indegree[to := indegree[to] + 1];
      assert outs[..k + 1][..k] == outs[..k];
    }
    assert outs[..|outs|] == outs;
  }

  lemma CountFromNext(out: Outgoing, us: seq<Id>, i: nat, v: Id)
    requires i < |us|
    ensures CountFrom(out, us[..i + 1], v) == CountFrom(out, us[..i], v) + Count(Outs(out, us[i]), v)
  {
    assert us[..i + 1][..i] == us[..i];
  }

  method Indegrees(nodes: seq<Id>, out: Outgoing) returns (indegree: map<Id, nat>)
    requires Closed(nodes, out)
    ensures indegree.Keys == set n | n in nodes
    ensures forall v :: v in nodes ==> indegree[v] == CountFrom(out, nodes, v)
  {
    indegree := map n | n in nodes :: 0;
    for i := 0 to |nodes|
      invariant indegree.Keys == set n | n in nodes
      invariant forall v :: v in nodes ==> indegree[v] == CountFrom(out, nodes[..i], v)
    {
      ghost var before := indegree;
      indegree := CountChildren(nodes, indegree, Outs(out, nodes[i]));
      forall v | v in nodes ensures indegree[v] == CountFrom(out, nodes[..i + 1], v) {
        assert before[v] == CountFrom(out, nodes[..i], v);
        CountFromNext(out, nodes, i, v);
      }
    }
    assert nodes[..|nodes|] == nodes;
  }

  method Sources(nodes: seq<Id>, indegree: map<Id, nat>) returns (queue: seq<Id>)
    requires Distinct(nodes) && indegree.Keys == set n | n in nodes
    ensures Distinct(queue) && forall v :: v in queue <==> v in nodes && indegree[v] == 0
  {
    queue := [];
    for i := 0 to |nodes|
      invariant Distinct(queue) && forall v :: v in queue <==> v in nodes[..i] && indegree[v] == 0
    {
      if indegree[nodes[i]] == 0 {
        queue := queue + [nodes[i]];
      }
    }
    assert nodes[..|nodes|] == nodes;
  }

  /** The edges counted off so far, of the nodes done and the first `k` children of the next. */
  lemma CountedOff(nodes: seq<Id>, out: Outgoing, queue: seq<Id>, pos: nat, k: nat, v: Id)
    requires Distinct(nodes) && Distinct(queue) && (forall u :: u in queue ==> u in nodes)
    requires pos < |queue| && k <= |Outs(out, queue[pos])|
    ensures var off := CountFrom(out, queue[..pos], v) + Count(Outs(out, queue[pos])[..k], v);
            && off <= CountFrom(out, nodes, v)
            && (off == CountFrom(out, nodes, v) ==>
                  forall u :: u in nodes && u !in queue[..pos + 1] ==> Count(Outs(out, u), v) == 0)
  {
    var part := queue[..pos + 1];
    assert part[..pos] == queue[..pos];
    CountPrefix(Outs(out, queue[pos]), k, v);
    CountFromSubset(out, part, nodes, v);
  }

  /** What is left of a child's indegree while its parent is being relaxed. */
  lemma StillCounted(nodes: seq<Id>, out: Outgoing, indegree: map<Id, nat>, queue: seq<Id>, pos: nat, k: nat)
    requires Distinct(nodes) && pos < |queue| && k < |Outs(out, queue[pos])|
    requires Kahn(nodes, out, indegree, queue, pos, Outs(out, queue[pos])[..k])
    requires Outs(out, queue[pos])[k].0 in nodes
    ensures var to := Outs(out, queue[pos])[k].0;
            && indegree[to] >= 1
            && (indegree[to] == 1 ==> forall u :: Edge(out, u, to) && u in nodes ==> u in queue[..pos + 1])
  {
    var to := Outs(out, queue[pos])[k].0;
    CountPrefix(Outs(out, queue[pos]), k, to);
    CountedOff(nodes, out, queue, pos, k + 1, to);
    if indegree[to] == 1 {
      forall u | Edge(out, u, to) && u in nodes ensures u in queue[..pos + 1] {
        var m :| 0 <= m < |Outs(out, u)| && Outs(out, u)[m].0 == to;
        CountPositive(Outs(out, u), to, m);
      }
    }
  }

  lemma ForwardMore(nodes: seq<Id>, out: Outgoing, queue: seq<Id>, part: seq<Id>, v: Id)
    requires Closed(nodes, out) && Forward(out, queue) && part <= queue
    requires forall u :: Edge(out, u, v) && u in nodes ==> u in part
    ensures Forward(out, queue + [v])
  {
    var queue' := queue + [v];
    forall j, u | 0 <= j < |queue'| && Edge(out, u, queue'[j]) ensures u in queue'[..j] {
      if j < |queue| {
        assert queue'[..j] == queue[..j] && queue'[j] == queue[j];
      } else {
        assert queue'[..j] == queue;
        assert u in part;
      }
    }
  }

  lemma BalancedOne(nodes: seq<Id>, out: Outgoing, indegree: map<Id, nat>, done: seq<Id>, outs: seq<(Id, bool)>, k: nat)
    requires k < |outs| && Balanced(nodes, out, indegree, done, outs[..k])
    requires outs[k].0 in nodes && indegree[outs[k].0] >= 1
    ensures Balanced(nodes, out, indegree[outs[k].0 := indegree[outs[k].0] - 1], done, outs[..k + 1])
  {
    forall v | v in nodes ensures Count(outs[..k + 1], v) == Count(outs[..k], v) + if outs[k].0 == v then 1 else 0 {
      CountPrefix(outs, k, v);
    }
  }

  lemma QueuedOne(nodes: seq<Id>, indegree: map<Id, nat>, queue: seq<Id>, to: Id)
    requires Queued(nodes, indegree, queue) && to in nodes && to in indegree && indegree[to] >= 1
    ensures Queued(nodes, indegree[to := indegree[to] - 1], if indegree[to] == 1 then queue + [to] else queue)
  {
  }

  /** One child relaxed: it joins the queue when its last incoming edge is gone. */
  lemma RelaxOne(nodes: seq<Id>, out: Outgoing, indegree: map<Id, nat>, queue: seq<Id>, pos: nat, k: nat)
    requires Closed(nodes, out) && Distinct(nodes) && pos < |queue| && k < |Outs(out, queue[pos])|
    requires Kahn(nodes, out, indegree, queue, pos, Outs(out, queue[pos])[..k])
    ensures var to := Outs(out, queue[pos])[k].0;
            && to in indegree && indegree[to] >= 1
            && Kahn(nodes, out, indegree[to := indegree[to] - 1], if indegree[to] == 1 then queue + [to] else queue, pos,
                    Outs(out, queue[pos])[..k + 1])
  {
    var to := Outs(out, queue[pos])[k].0;
    assert to in nodes;
    StillCounted(nodes, out, indegree, queue, pos, k);
    BalancedOne(nodes, out, indegree, queue[..pos], Outs(out, queue[pos]), k);
    QueuedOne(nodes, indegree, queue, to);
    if indegree[to] == 1 {
      KahnPush(nodes, out, indegree[to := 0], queue, pos, Outs(out, queue[pos])[..k + 1], to);
    }
  }

  lemma KahnPush(nodes: seq<Id>, out: Outgoing, indegree: map<Id, nat>, queue: seq<Id>, pos: nat, partial: seq<(Id, bool)>, to: Id)
    requires Closed(nodes, out) && pos < |queue| && Forward(out, queue)
    requires Balanced(nodes, out, indegree, queue[..pos], partial) && Queued(nodes, indegree, queue + [to])
    requires forall u :: Edge(out, u, to) && u in nodes ==> u in queue[..pos + 1]
    ensures Kahn(nodes, out, indegree, queue + [to], pos, partial)
  {
    ForwardMore(nodes, out, queue, queue[..pos + 1], to);
    assert (queue + [to])[..pos] == queue[..pos];
  }

  lemma RelaxDone(nodes: seq<Id>, out: Outgoing, indegree: map<Id, nat>, queue: seq<Id>, pos: nat)
    requires pos < |queue| && Kahn(nodes, out, indegree, queue, pos, Outs(out, queue[pos]))
    ensures Kahn(nodes, out, indegree, queue, pos + 1, [])
  {
    assert queue[..pos + 1][..pos] == queue[..pos];
  }

  /** Relaxing the children of one node. */
  method Relax(nodes: seq<Id>, out: Outgoing, indegree0: map<Id, nat>, queue0: seq<Id>, pos: nat)
    returns (indegree: map<Id, nat>, queue: seq<Id>)
    requires Closed(nodes, out) && Distinct(nodes) && pos < |queue0| && Kahn(nodes, out, indegree0, queue0, pos, [])
    ensures queue0 <= queue && Kahn(nodes, out, indegree, queue, pos + 1, [])
  {
    indegree, queue := indegree0, queue0;
    var outs := Outs(out, queue[pos]);
    for k := 0 to |outs|
      invariant queue0 <= queue && queue[pos] == queue0[pos] && Kahn(nodes, out, indegree, queue, pos, outs[..k])
    {
      RelaxOne(nodes, out, indegree, queue, pos, k);
      var to := outs[k].0;
      indegree := indegree[to := indegree[to] - 1];
      if indegree[to] == 0 {
        queue := queue + [to];
      }
    }
    assert outs[..|outs|] == outs;
    RelaxDone(nodes, out, indegree, queue, pos);
  }

  // ---------- a graph where every node has a predecessor ----------

  lemma {:induction false} Pigeonhole(p: seq<Id>, s: set<Id>) returns (i: nat, j: nat)
    requires |p| > |s| && forall k :: 0 <= k < |p| ==> p[k] in s
    ensures i < j < |p| && p[i] == p[j]
    decreases |p|
  {
    if p[0] in p[1..] {
      i := 0;
      var m :| 0 <= m < |p| - 1 && p[1..][m] == p[0];
      j := m + 1;
    } else {
      forall k | 0 <= k < |p| - 1 ensures p[1..][k] in s - {p[0]} {
        assert p[1..][k] == p[k + 1];
      }
      assert |s - {p[0]}| == |s| - 1;
      var i', j' := Pigeonhole(p[1..], s - {p[0]});
      i, j := i' + 1, j' + 1;
    }
  }

  ghost predicate HasPredecessor(out: Outgoing, s: set<Id>, v: Id) {
    exists u :: u in s && Edge(out, u, v)
  }

  lemma {:induction false} WalkBack(out: Outgoing, s: set<Id>, start: Id, n: nat) returns (p: seq<Id>)
    requires start in s && forall v {:trigger HasPredecessor(out, s, v)} :: v in s ==> HasPredecessor(out, s, v)
    ensures |p| == n + 1 && Path(out, p) && forall k :: 0 <= k < |p| ==> p[k] in s
  {
    if n == 0 {
      p := [start];
    } else {
      var q := WalkBack(out, s, start, n - 1);
      assert HasPredecessor(out, s, q[0]);
      var u :| u in s && Edge(out, u, q[0]);
      p := [u] + q;
      forall i | 0 <= i < |p| - 1 ensures Edge(out, p[i], p[i + 1]) {
        if i > 0 {
          assert Edge(out, q[i - 1], q[i]);
        }
      }
    }
  }

  lemma NoSourceMeansCycle(out: Outgoing, s: set<Id>)
    requires s != {} && forall v {:trigger HasPredecessor(out, s, v)} :: v in s ==> HasPredecessor(out, s, v)
    ensures !Acyclic(out)
  {
    var start :| start in s;
    var p := WalkBack(out, s, start, |s|);
    var i, j := Pigeonhole(p, s);
    var c := p[i..j + 1];
    forall k | 0 <= k < |c| - 1 ensures Edge(out, c[k], c[k + 1]) {
      assert Edge(out, p[i + k], p[i + k + 1]);
    }
    assert Cycle(out, c);
  }

  lemma {:induction false} ReversePath(out: Outgoing, order: seq<Id>, p: seq<Id>, i: nat)
    requires Distinct(order) && Forward(out, order) && Path(out, p)
    requires i < |order| && order[i] == p[|p| - 1]
    ensures exists j :: 0 <= j <= i - (|p| - 1) && order[j] == p[0]
    decreases |p|
  {
    if |p| > 1 {
      var n := |p| - 1;
      assert Edge(out, p[n - 1], p[n]);
      assert p[n - 1] in order[..i];
      var j :| 0 <= j < i && order[j] == p[n - 1];
      var q := p[..n];
      forall m | 0 <= m < |q| - 1 ensures Edge(out, q[m], q[m + 1]) {
        assert Edge(out, p[m], p[m + 1]);
      }
      ReversePath(out, order, q, j);
    }
  }

  lemma ForwardIsAcyclic(nodes: seq<Id>, out: Outgoing, order: seq<Id>)
    requires Closed(nodes, out) && Distinct(order) && Forward(out, order) && forall n :: n in nodes ==> n in order
    ensures Acyclic(out)
  {
    forall p | Cycle(out, p) ensures false {
      assert Edge(out, p[0], p[1]);
      var i :| 0 <= i < |order| && order[i] == p[0];
      ReversePath(out, order, p, i);
    }
  }

  lemma StrandedMeansCycle(nodes: seq<Id>, out: Outgoing, indegree: map<Id, nat>, queue: seq<Id>, stranded: set<Id>)
    requires Closed(nodes, out) && Distinct(nodes) && Kahn(nodes, out, indegree, queue, |queue|, [])
    requires stranded == (set n | n in nodes && n !in queue) && stranded != {}
    ensures !Acyclic(out)
  {
    assert queue[..|queue|] == queue;
    forall v | v in stranded ensures HasPredecessor(out, stranded, v) {
      var u := StrandedPredecessor(nodes, out, queue, v);
      assert u in stranded;
    }
    NoSourceMeansCycle(out, stranded);
  }

  /** More edges lead into a stranded node than the queued ones account for. */
  lemma StrandedPredecessor(nodes: seq<Id>, out: Outgoing, queue: seq<Id>, v: Id) returns (u: Id)
    requires Closed(nodes, out) && Distinct(nodes) && Distinct(queue) && (forall x :: x in queue ==> x in nodes)
    requires CountFrom(out, queue, v) < CountFrom(out, nodes, v)
    ensures u in nodes && u !in queue && Edge(out, u, v)
    decreases |nodes|
  {
    var rest := Filter(nodes, queue);
    CountFromFilter(out, nodes, queue, v);
    u := CountFromWitness(out, rest, v);
  }

  function Filter(nodes: seq<Id>, queue: seq<Id>): (rest: seq<Id>)
    ensures forall x :: x in rest <==> x in nodes && x !in queue
  {
    if nodes == [] then []
    else
      var rest := Filter(nodes[..|nodes| - 1], queue);
      assert nodes == nodes[..|nodes| - 1] + [nodes[|nodes| - 1]];
      if nodes[|nodes| - 1] in queue then rest else rest + [nodes[|nodes| - 1]]
  }

  lemma {:induction false} CountFromFilter(out: Outgoing, nodes: seq<Id>, queue: seq<Id>, v: Id)
    requires Distinct(nodes) && Distinct(queue)
    ensures CountFrom(out, nodes, v) <= CountFrom(out, Filter(nodes, queue), v) + CountFrom(out, queue, v)
    decreases |nodes|
  {
    if nodes != [] {
      var last, init := nodes[|nodes| - 1], nodes[..|nodes| - 1];
      if last in queue {
        var i :| 0 <= i < |queue| && queue[i] == last;
        var queue' := queue[..i] + queue[i + 1..];
        CountFromRemove(out, queue, i, v);
        CountFromFilter(out, init, queue', v);
        FilterWithout(init, queue, i);
      } else {
        CountFromFilter(out, init, queue, v);
        var rest := Filter(nodes, queue);
        assert rest[..|rest| - 1] == Filter(init, queue);
      }
    }
  }

  lemma {:induction false} FilterWithout(nodes: seq<Id>, queue: seq<Id>, i: nat)
    requires i < |queue| && queue[i] !in nodes
    ensures Filter(nodes, queue) == Filter(nodes, queue[..i] + queue[i + 1..])
  {
    if nodes != [] {
      assert nodes == nodes[..|nodes| - 1] + [nodes[|nodes| - 1]];
      FilterWithout(nodes[..|nodes| - 1], queue, i);
      var last := nodes[|nodes| - 1];
      assert last in queue <==> last in queue[..i] + queue[i + 1..] by {
        assert queue == queue[..i] + [queue[i]] + queue[i + 1..];
      }
    }
  }

  lemma Stuck(nodes: seq<Id>, out: Outgoing, indegree: map<Id, nat>, queue: seq<Id>)
    requires Closed(nodes, out) && Distinct(nodes) && Kahn(nodes, out, indegree, queue, |queue|, []) && |queue| != |nodes|
    ensures !Acyclic(out)
  {
    SameMembers(queue, nodes);
    var x :| x in nodes && x !in queue;
    var stranded := set n | n in nodes && n !in queue;
    assert x in stranded;
    StrandedMeansCycle(nodes, out, indegree, queue, stranded);
  }

  lemma SourcesForward(nodes: seq<Id>, out: Outgoing, queue: seq<Id>)
    requires Closed(nodes, out) && Distinct(nodes) && forall v :: v in queue ==> CountFrom(out, nodes, v) == 0
    ensures Forward(out, queue)
  {
    forall j, u | 0 <= j < |queue| ensures !Edge(out, u, queue[j]) {
      NoEdgeIn(nodes, out, u, queue[j]);
    }
  }

  /** Kahn's order: it exists exactly for the acyclic graphs, lists every node once, and puts
  every edge forward. */
  method TopoOrder(nodes: seq<Id>, out: Outgoing) returns (r: Result<seq<Id>, set<Id>>)
    requires Closed(nodes, out) && Distinct(nodes)
    ensures r.Ok? <==> Acyclic(out)
    ensures r.Ok? ==>
              && |r.value| == |nodes| && Distinct(r.value) && Forward(out, r.value)
              && forall n :: n in r.value <==> n in nodes
  {
    var indegree := Indegrees(nodes, out);
    var queue := Sources(nodes, indegree);
    SourcesForward(nodes, out, queue);
    var pos := 0;
    while pos < |queue|
      invariant pos <= |queue| && Kahn(nodes, out, indegree, queue, pos, [])
      decreases |nodes| - pos
    {
      AtMost(queue, nodes);
      indegree, queue := Relax(nodes, out, indegree, queue, pos);
      pos := pos + 1;
    }
    if |queue| != |nodes| {
      Stuck(nodes, out, indegree, queue);
      var stranded := set n | n in nodes && n !in queue;
      return Err(stranded);
    }
    SameMembers(queue, nodes);
    ForwardIsAcyclic(nodes, out, queue);
    return Ok(queue);
  }

  lemma NoEdgeIn(nodes: seq<Id>, out: Outgoing, u: Id, v: Id)
    requires Closed(nodes, out) && Distinct(nodes) && CountFrom(out, nodes, v) == 0
    ensures !Edge(out, u, v)
  {
    if Edge(out, u, v) {
      var k :| 0 <= k < |Outs(out, u)| && Outs(out, u)[k].0 == v;
      CountPositive(Outs(out, u), v, k);
      var i :| 0 <= i < |nodes| && nodes[i] == u;
      CountFromRemove(out, nodes, i, v);
    }
  }

  lemma SetOfDistinct(s: seq<Id>)
    requires Distinct(s)
    ensures |set x | x in s| == |s|
  {
    if s != [] {
      var init := s[..|s| - 1];
      SetOfDistinct(init);
      assert (set x | x in s) == (set x | x in init) + {s[|s| - 1]};
    }
  }

  lemma AtMost(part: seq<Id>, all: seq<Id>)
    requires Distinct(part) && Distinct(all) && forall x :: x in part ==> x in all
    ensures |part| <= |all|
  {
    SetOfDistinct(part);
    SetOfDistinct(all);
    SubsetSize(set x | x in part, set x | x in all);
  }

  lemma SubsetSize(a: set<Id>, b: set<Id>)
    requires a <= b
    ensures |a| + |b - a| == |b| && (|a| == |b| ==> a == b)
  {
    assert b == a + (b - a);
  }

  /** Distinct nodes among others are all of them exactly when they are as many. */
  lemma SameMembers(part: seq<Id>, all: seq<Id>)
    requires Distinct(part) && Distinct(all) && forall x :: x in part ==> x in all
    ensures |part| == |all| ==> forall x :: x in all ==> x in part
    ensures |part| != |all| ==> exists x :: x in all && x !in part
  {
    var a, b := set x | x in part, set x | x in all;
    SetOfDistinct(part);
    SetOfDistinct(all);
    SubsetSize(a, b);
    if |part| == |all| {
      forall x | x in all ensures x in part {
        assert x in b;
      }
    } else {
      var x :| x in b - a;
      assert x in all && x !in part;
    }
  }

  // ---------- depth ----------

  /** `d` is the number of nodes on the longest path that starts at `v`. */
  ghost predicate Longest(out: Outgoing, v: Id, d: nat) {
    && (exists p :: Path(out, p) && p[0] == v && |p| == d)
    && (forall p :: Path(out, p) && p[0] == v ==> |p| <= d)
  }

  lemma ExtendPath(out: Outgoing, u: Id, p: seq<Id>)
    requires Path(out, p) && Edge(out, u, p[0])
    ensures Path(out, [u] + p)
  {
    var q := [u] + p;
    forall i | 0 <= i < |q| - 1 ensures Edge(out, q[i], q[i + 1]) {
      if i > 0 {
        assert Edge(out, p[i - 1], p[i]);
      }
    }
  }

  lemma PathTail(out: Outgoing, p: seq<Id>)
    requires Path(out, p) && |p| > 1
    ensures Edge(out, p[0], p[1]) && Path(out, p[1..])
  {
    forall i | 0 <= i < |p| - 2 ensures Edge(out, p[1..][i], p[1..][i + 1]) {
      assert Edge(out, p[i + 1], p[i + 2]);
    }
  }

  /** One more than the deepest child. */
  lemma LongestStep(out: Outgoing, u: Id, depth: map<Id, nat>, m: nat)
    requires forall k :: 0 <= k < |Outs(out, u)| ==>
               var v := Outs(out, u)[k].0;
               v in depth && depth[v] <= m && Longest(out, v, depth[v])
    requires m == 0 || exists k :: 0 <= k < |Outs(out, u)| && depth[Outs(out, u)[k].0] == m
    ensures Longest(out, u, 1 + m)
  {
    if m == 0 {
      assert Path(out, [u]);
    } else {
      var k :| 0 <= k < |Outs(out, u)| && depth[Outs(out, u)[k].0] == m;
      var p :| Path(out, p) && p[0] == Outs(out, u)[k].0 && |p| == m;
      assert Edge(out, u, p[0]);
      ExtendPath(out, u, p);
    }
    forall p | Path(out, p) && p[0] == u ensures |p| <= 1 + m {
      if |p| > 1 {
        PathTail(out, p);
        var k :| 0 <= k < |Outs(out, u)| && Outs(out, u)[k].0 == p[1];
        assert Longest(out, p[1], depth[p[1]]);
        assert p[1..][0] == p[1];
      }
    }
  }

  method DeepestChild(outs: seq<(Id, bool)>, depth: map<Id, nat>) returns (m: nat)
    requires forall k :: 0 <= k < |outs| ==> outs[k].0 in depth
    ensures forall k :: 0 <= k < |outs| ==> depth[outs[k].0] <= m
    ensures m == 0 || exists k :: 0 <= k < |outs| && depth[outs[k].0] == m
  {
    m := 0;
    for k := 0 to |outs|
      invariant forall l :: 0 <= l < k ==> depth[outs[l].0] <= m
      invariant m == 0 || exists l :: 0 <= l < k && depth[outs[l].0] == m
    {
      if depth[outs[k].0] > m {
        m := depth[outs[k].0];
      }
    }
  }

  function Members(s: seq<Id>): set<Id> {
    set n | n in s
  }

  method DepthOf(nodes: seq<Id>, out: Outgoing, order: seq<Id>, i: nat, depth: map<Id, nat>) returns (d: nat)
    requires Closed(nodes, out) && Distinct(order) && Forward(out, order) && forall n :: n in order <==> n in nodes
    requires i < |order| && depth.Keys == Members(order[i + 1..])
    requires forall n :: n in depth ==> Longest(out, n, depth[n])
    ensures Longest(out, order[i], d)
  {
    var outs := Outs(out, order[i]);
    forall k | 0 <= k < |outs| ensures outs[k].0 in depth {
      ChildIsLater(nodes, out, order, i, k);
    }
    var m := DeepestChild(outs, depth);
    LongestStep(out, order[i], depth, m);
    d := 1 + m;
  }

  /** The bottom-up pass: popping a topological order from its end, every child is ready. */
  method Depths(nodes: seq<Id>, out: Outgoing, order: seq<Id>) returns (depth: map<Id, nat>)
    requires Closed(nodes, out) && Distinct(order) && Forward(out, order) && forall n :: n in order <==> n in nodes
    ensures depth.Keys == (set n | n in nodes) && forall n :: n in nodes ==> Longest(out, n, depth[n])
  {
    depth := map[];
    var left := |order|;
    while left > 0
      invariant 0 <= left <= |order|
      invariant depth.Keys == Members(order[left..])
      invariant forall n :: n in depth ==> Longest(out, n, depth[n])
    {
      left := left - 1;
      var id := order[left];
      var m := DepthOf(nodes, out, order, left, depth);
      assert order[left..] == [id] + order[left + 1..];
      depth := depth[id := m];
    }
    assert order[0..] == order;
  }

  lemma ChildIsLater(nodes: seq<Id>, out: Outgoing, order: seq<Id>, i: nat, k: nat)
    requires Closed(nodes, out) && Distinct(order) && Forward(out, order) && forall n :: n in order <==> n in nodes
    requires i < |order| && k < |Outs(out, order[i])|
    ensures Outs(out, order[i])[k].0 in order[i + 1..]
  {
    var v := Outs(out, order[i])[k].0;
    assert v in nodes;
    var j :| 0 <= j < |order| && order[j] == v;
    assert Edge(out, order[i], order[j]);
    assert order[i] in order[..j];
    assert order[i + 1..][j - i - 1] == v;
  }
}
