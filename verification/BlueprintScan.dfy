/** The generated text of `blueprint.rs` and its last scan. */
module BlueprintScan {
  import opened Wrappers
  import opened BlueprintGraph
  import opened BlueprintStructure
  import opened BlueprintCodegen
  import opened BlueprintKnobs
  import opened BlueprintOrder
  import opened GuardCode
  import opened Lua
  import T = Text

  /* The third stage ends by searching the whole text for the forbidden substrings and refuses what
  carries one.  The first two stages do not look at node ids, and ids go into the text as the wire
  names of knobs. */

  // ---------- searching ----------

  /** The characters the forbidden substrings are made of. */
  predicate Letter(c: char) {
    c == 'o' || c == 's' || c == '.' || c == 'i' || c == 'd' || c == 'e' || c == 'b' || c == 'u' || c == 'g'
  }

  predicate Letters(part: string) {
    |part| >= 2 && forall i :: 0 <= i < |part| ==> Letter(part[i])
  }

  /** No forbidden substring reaches over the seam. */
  predicate Apart(a: string, b: string) {
    a == "" || b == "" || !Letter(a[|a| - 1]) || !Letter(b[0])
  }

  lemma FoundAt(s: string, part: string, i: nat, j: nat)
    requires T.PartAt(s, part, i) && j < |part|
    ensures i + j < |s| && s[i + j] == part[j]
  {
    assert s[i..i + |part|][j] == s[i + j];
  }

  lemma PartIn(s: string, part: string, i: nat)
    requires i + |part| <= |s| && s[i..i + |part|] == part
    ensures T.Contains(s, part)
  {
    assert T.PartAt(s, part, i);
  }

  lemma ContainsMore(a: string, s: string, b: string, part: string)
    requires T.Contains(s, part)
    ensures T.Contains(a + s + b, part)
  {
    var i :| 0 <= i <= |s| - |part| && T.PartAt(s, part, i);
    assert (a + s + b)[|a| + i..|a| + i + |part|] == s[i..i + |part|];
    PartIn(a + s + b, part, |a| + i);
  }

  /** An occurrence that reaches over the seam shows its letters on both sides. */
  lemma OverTheSeam(a: string, b: string, part: string, i: nat)
    requires Letters(part) && T.PartAt(a + b, part, i) && i < |a| < i + |part|
    ensures !Apart(a, b)
  {
    hide T.PartAt;
    var n := |a|;
    FoundAt(a + b, part, i, n - 1 - i);
    FoundAt(a + b, part, i, n - i);
    assert (a + b)[n - 1] == a[n - 1] && (a + b)[n] == b[0];
  }

  lemma SliceLeft(a: string, b: string, i: nat, m: nat)
    requires i + m <= |a|
    ensures (a + b)[i..i + m] == a[i..i + m]
  {
  }

  lemma SliceRight(a: string, b: string, i: nat, m: nat)
    requires i + m <= |b|
    ensures (a + b)[|a| + i..|a| + i + m] == b[i..i + m]
  {
  }

  lemma ContainsBoth(a: string, b: string, part: string)
    requires Letters(part) && Apart(a, b)
    ensures T.Contains(a + b, part) <==> T.Contains(a, part) || T.Contains(b, part)
  {
    var n, m := |a|, |part|;
    if T.Contains(a + b, part) {
      var i :| 0 <= i <= |a + b| - m && T.PartAt(a + b, part, i);
      if i + m <= n {
        SliceLeft(a, b, i, m);
        PartIn(a, part, i);
      } else if i >= n {
        SliceRight(a, b, i - n, m);
        PartIn(b, part, i - n);
      } else {
        OverTheSeam(a, b, part, i);
      }
    }
    if T.Contains(a, part) {
      ContainsMore("", a, b, part);
      assert "" + a + b == a + b;
    }
    if T.Contains(b, part) {
      ContainsMore(a, b, "", part);
      assert a + b + "" == a + b;
    }
  }

  lemma ForbiddenBoth(a: string, b: string)
    requires Apart(a, b)
    ensures Forbidden(a + b) <==> Forbidden(a) || Forbidden(b)
  {
    hide T.Contains;
    ContainsBoth(a, b, "os.");
    ContainsBoth(a, b, "io.");
    ContainsBoth(a, b, "debug");
  }

  /** A text in which two neighbours of `part` never meet does not contain it. */
  lemma NeverMeet(s: string, part: string, j: nat)
    requires j + 1 < |part| && forall i :: 0 <= i < |s| - 1 ==> s[i] != part[j] || s[i + 1] != part[j + 1]
    ensures !T.Contains(s, part)
  {
    hide T.PartAt;
    forall i: nat | i <= |s| - |part| ensures !T.PartAt(s, part, i) {
      if T.PartAt(s, part, i) {
        FoundAt(s, part, i, j);
        FoundAt(s, part, i, j + 1);
      }
    }
  }

  /** Neither `s.`, `o.` nor `de` is in the text. */
  lemma NothingForbidden(s: string)
    requires forall i :: 0 <= i < |s| - 1 ==> (s[i + 1] != '.' || (s[i] != 's' && s[i] != 'o')) && (s[i] != 'd' || s[i + 1] != 'e')
    ensures !Forbidden(s)
  {
    hide T.Contains;
    NeverMeet(s, "os.", 1);
    NeverMeet(s, "io.", 1);
    NeverMeet(s, "debug", 0);
  }

  // ---------- quoted strings ----------

  function Quoted(s: string): string {
    "\"" + EscapeAll(s) + "\""
  }

  lemma ContainsStep(s: string, part: string)
    requires s != "" && part != ""
    ensures T.Contains(s, part) <==> part <= s || T.Contains(s[1..], part)
  {
    var rest := s[1..];
    if T.Contains(s, part) {
      var i :| 0 <= i <= |s| - |part| && T.PartAt(s, part, i);
      if i == 0 {
        assert s[0..|part|] == s[..|part|];
      } else {
        assert rest[i - 1..i - 1 + |part|] == s[i..i + |part|];
        assert T.PartAt(rest, part, i - 1);
      }
    }
    if part <= s {
      assert s[0..0 + |part|] == part;
      assert T.PartAt(s, part, 0);
    }
    if T.Contains(rest, part) {
      var i :| 0 <= i <= |rest| - |part| && T.PartAt(rest, part, i);
      assert s[i + 1..i + 1 + |part|] == rest[i..i + |part|];
      assert T.PartAt(s, part, i + 1);
    }
  }

  lemma LetterUnescaped(c: char)
    ensures Letter(c) ==> Escape(c) == [c]
    ensures !Letter(c) ==> Escape(c) != "" && forall i :: 0 <= i < |Escape(c)| ==> !Letter(Escape(c)[i])
  {
  }

  lemma {:induction false} EscapedPrefix(s: string, part: string)
    requires forall i :: 0 <= i < |part| ==> Letter(part[i])
    ensures part <= EscapeAll(s) <==> part <= s
    decreases |s|
  {
    hide Escape, Letter;
    if s != "" && part != "" {
      LetterUnescaped(s[0]);
      LetterUnescaped(part[0]);
      EscapedPrefix(s[1..], part[1..]);
      var e := EscapeAll(s);
      assert e == Escape(s[0]) + EscapeAll(s[1..]);
      assert part == [part[0]] + part[1..] && s == [s[0]] + s[1..];
      if Letter(s[0]) {
        assert e == [s[0]] + EscapeAll(s[1..]);
        PrefixStep(e, part);
        PrefixStep(s, part);
      } else {
        assert e[0] == Escape(s[0])[0];
      }
    }
  }

  lemma PrefixStep(s: string, part: string)
    requires s != "" && part != ""
    ensures part <= s <==> part[0] == s[0] && part[1..] <= s[1..]
  {
    if part[0] == s[0] && part[1..] <= s[1..] {
      assert s[1..][..|part| - 1] == part[1..];
      assert s[..|part|] == [s[0]] + s[1..][..|part| - 1];
    }
    if part <= s {
      assert part[1..] == s[1..][..|part| - 1];
    }
  }

  /** Nothing can be hidden in, or made by, an escape. */
  lemma {:induction false} EscapedContains(s: string, part: string)
    requires Letters(part)
    ensures T.Contains(EscapeAll(s), part) <==> T.Contains(s, part)
    decreases |s|
  {
    hide Escape, Letter, T.Contains;
    if s != "" {
      var c, rest := s[0], s[1..];
      LetterUnescaped(c);
      EscapedContains(rest, part);
      assert s == [c] + rest;
      if Letter(c) {
        assert EscapeAll(s) == [c] + EscapeAll(rest);
        assert EscapeAll(s)[1..] == EscapeAll(rest);
        EscapedPrefix(s, part);
        ContainsStep(s, part);
        ContainsStep(EscapeAll(s), part);
      } else {
        ContainsBoth([c], rest, part);
        ContainsBoth(Escape(c), EscapeAll(rest), part);
        NoLetters([c], part);
        NoLetters(Escape(c), part);
      }
    }
  }

  lemma NoLetters(s: string, part: string)
    requires Letters(part) && forall i :: 0 <= i < |s| ==> !Letter(s[i])
    ensures !T.Contains(s, part)
  {
    hide T.PartAt;
    forall i: nat | i <= |s| - |part| ensures !T.PartAt(s, part, i) {
      if T.PartAt(s, part, i) {
        FoundAt(s, part, i, 0);
      }
    }
  }

  lemma QuotedForbidden(s: string)
    ensures Forbidden(Quoted(s)) <==> Forbidden(s)
  {
    hide T.Contains;
    EscapedContains(s, "os.");
    EscapedContains(s, "io.");
    EscapedContains(s, "debug");
    ForbiddenBoth("\"", EscapeAll(s));
    ForbiddenBoth("\"" + EscapeAll(s), "\"");
    NothingForbidden("\"");
  }

  // ---------- spelling ----------

  /** How numbers are written. */
  type Numerals = real -> string

  ghost predicate Decimal(num: Numerals) {
    forall n: real, i :: 0 <= i < |num(n)| ==> '0' <= num(n)[i] <= '9' || num(n)[i] == '.'
  }

  function Spell(t: Token, num: Numerals): string {
    match t
    case Name(x) => x
    case Number(n) => num(n)
    case Text(s) => Quoted(s)
    case True => "true"
    case False => "false"
    case Nil => "nil"
    case Rel(op) => " " + op + " "
    case Minus => "-"
    case And => " and "
    case Or => " or "
    case Not => "not "
    case LPar => "("
    case RPar => ")"
    case Comma => ", "
  }

  function Spelled(ts: seq<Token>, num: Numerals): string {
    if ts == [] then "" else Spell(ts[0], num) + Spelled(ts[1..], num)
  }

  /** Tokens that could run into a neighbour. */
  predicate WordToken(t: Token) {
    t.Name? || t.Number? || t.True? || t.False? || t.Nil? || t.Not?
  }

  predicate KnownName(x: string) {
    || x == "__param" || x == "tick.price" || x == "tick.mid_price" || x == "tick.time_left_sec"
    || x == "tick.trend_confirmed" || x == "tick.obi" || x == "tick.available_balance"
  }

  predicate TokenOk(t: Token) {
    (t.Name? ==> KnownName(t.name)) && (t.Rel? ==> ConditionOp(t.op))
  }

  /** Only known names and operators, and no two words side by side. */
  predicate Separate(ts: seq<Token>) {
    && (forall i :: 0 <= i < |ts| ==> TokenOk(ts[i]))
    && forall i :: 0 <= i < |ts| - 1 ==> !(WordToken(ts[i]) && WordToken(ts[i + 1]))
  }

  predicate Dirty(ts: seq<Token>) {
    exists i :: 0 <= i < |ts| && ts[i].Text? && Forbidden(ts[i].s)
  }

  lemma KnownNamesClean(x: string)
    requires KnownName(x)
    ensures !Forbidden(x)
  {
    hide Forbidden;
    if x == "__param" {
      NothingForbidden("__param");
    } else if x == "tick.price" {
      NothingForbidden("tick.price");
    } else if x == "tick.mid_price" {
      NothingForbidden("tick.mid_price");
    } else if x == "tick.obi" {
      NothingForbidden("tick.obi");
    } else {
      LongNamesClean();
    }
  }

  lemma LongNamesClean()
    ensures !Forbidden("tick.time_left_sec") && !Forbidden("tick.trend_confirmed") && !Forbidden("tick.available_balance")
  {
    hide Forbidden;
    NothingForbidden("tick.time_left_sec");
    NothingForbidden("tick.trend_confirmed");
    NothingForbidden("tick.available_balance");
  }

  lemma NumeralsClean(num: Numerals, n: real)
    requires Decimal(num)
    ensures !Forbidden(num(n))
  {
    NothingForbidden(num(n));
  }

  lemma RelClean(op: string)
    requires ConditionOp(op)
    ensures !Forbidden(" " + op + " ")
  {
    NothingForbidden(" " + op + " ");
  }

  /** A token carries a forbidden substring only in a string. */
  lemma TokenScan(t: Token, num: Numerals)
    requires Decimal(num) && TokenOk(t)
    ensures Forbidden(Spell(t, num)) <==> t.Text? && Forbidden(t.s)
  {
    hide Forbidden, KnownName;
    match t
    case Name(x) => KnownNamesClean(x);
    case Number(n) => NumeralsClean(num, n);
    case Text(s) => QuotedForbidden(s);
    case Rel(op) => RelClean(op);
    case _ => NothingForbidden(Spell(t, num));
  }

  lemma NotAWord(t: Token, num: Numerals)
    requires !WordToken(t)
    ensures var s := Spell(t, num); s != "" && !Letter(s[0]) && !Letter(s[|s| - 1])
  {
  }

  /** The spelled text carries a forbidden substring exactly when one of its strings does. */
  lemma {:induction false} SpelledScan(ts: seq<Token>, num: Numerals)
    requires Decimal(num) && Separate(ts)
    ensures Forbidden(Spelled(ts, num)) <==> Dirty(ts)
    decreases |ts|
  {
    hide Forbidden, Spell, TokenOk, Letter, Decimal;
    if ts == [] {
      NothingForbidden("");
    } else {
      var rest := ts[1..];
      SpelledScan(rest, num);
      TokenScan(ts[0], num);
      if WordToken(ts[0]) {
        if rest != [] {
          assert !WordToken(rest[0]);
          NotAWord(rest[0], num);
        }
      } else {
        NotAWord(ts[0], num);
      }
      ForbiddenBoth(Spell(ts[0], num), Spelled(rest, num));
      assert ts == [ts[0]] + rest;
    }
  }

  // ---------- what the generator emits ----------

  /** Known names and operators, words apart, and a forbidden string only as the name of a knob. */
  predicate Tidy(ts: seq<Token>) {
    && Separate(ts)
    && forall i :: 0 <= i < |ts| && ts[i].Text? && Forbidden(ts[i].s) ==> i >= 2 && ts[i - 2] == Name("__param")
  }

  /** Punctuation only. */
  predicate Marks(ts: seq<Token>) {
    forall i :: 0 <= i < |ts| ==> !WordToken(ts[i]) && !ts[i].Text? && TokenOk(ts[i])
  }

  lemma TidyBoth(a: seq<Token>, b: seq<Token>)
    requires Tidy(a) && Tidy(b) && (a == [] || b == [] || !WordToken(a[|a| - 1]) || !WordToken(b[0]))
    ensures Tidy(a + b)
  {
    hide Forbidden, TokenOk, WordToken;
    var t := a + b;
    forall i | 0 <= i < |t| && t[i].Text? && Forbidden(t[i].s) ensures i >= 2 && t[i - 2] == Name("__param") {
      if i >= |a| {
        assert b[i - |a|] == t[i];
      }
    }
  }

  lemma MarksTidy(ts: seq<Token>)
    requires Marks(ts)
    ensures Tidy(ts)
  {
  }

  lemma TidyAround(before: seq<Token>, ts: seq<Token>, after: seq<Token>)
    requires Marks(before) && Tidy(ts) && Marks(after)
    ensures Tidy(before + ts + after)
  {
    hide TokenOk, WordToken, Forbidden;
    MarksTidy(before);
    MarksTidy(after);
    TidyBoth(before, ts);
    TidyBoth(before + ts, after);
  }

  lemma LiteralTidy(v: Json)
    requires Scalar(v) && TextOk(v)
    ensures Tidy(Literal(v)) && Literal(v) != []
  {
    hide Forbidden;
  }

  lemma AnchorTidy(name: string, v: Json)
    requires Scalar(v) && TextOk(v)
    ensures Tidy(Anchor(name, v))
  {
    hide Forbidden;
    LiteralTidy(v);
    if v.JNum? {
      var head := [Name("__param"), LPar, Text(name), Comma];
      assert Tidy(head);
      TidyAround([], Literal(v), [RPar]);
      assert [] + Literal(v) + [RPar] == Literal(v) + [RPar];
      TidyBoth(head, Literal(v) + [RPar]);
      assert Anchor(name, v) == head + (Literal(v) + [RPar]);
    }
  }

  /** What the second stage leaves of a guard: known fields, clean strings. */
  predicate Lawful(g: Guard) {
    match g
    case Test(_, left, op, value) =>
      && (if left.Field? then KnownName(left.expr) else TextOk(left.value))
      && (if op == "in" then ListOk(value) else TextOk(value))
    case Join(_, inputs) => forall i :: 0 <= i < |inputs| ==> Lawful(inputs[i].guard)
  }

  lemma OperandTidy(o: Operand)
    requires if o.Field? then KnownName(o.expr) else Scalar(o.value) && TextOk(o.value)
    ensures Tidy(EmitOperand(o))
  {
    if o.Knob? {
      AnchorTidy(KnobName(o.id), o.value);
    }
  }

  /** `left op right`. */
  lemma RelationTidy(left: seq<Token>, op: string, right: seq<Token>)
    requires Tidy(left) && Tidy(right) && ConditionOp(op)
    ensures Tidy(left + [Rel(op)] + right)
  {
    hide Forbidden;
    TidyAround([], left, [Rel(op)]);
    assert [] + left + [Rel(op)] == left + [Rel(op)];
    TidyBoth(left + [Rel(op)], right);
  }

  ghost predicate AllTidy(parts: seq<seq<Token>>) {
    forall i :: 0 <= i < |parts| ==> Tidy(parts[i])
  }

  lemma {:induction false} TailTidy(joiner: Token, parts: seq<seq<Token>>)
    requires AllTidy(parts) && Marks([joiner])
    ensures Tidy(JoinTail(joiner, parts)) && (parts != [] ==> JoinTail(joiner, parts) != [] && JoinTail(joiner, parts)[0] == joiner)
    decreases |parts|
  {
    hide Forbidden, TokenOk, Tidy;
    if parts == [] {
      MarksTidy([]);
    } else {
      TailTidy(joiner, parts[1..]);
      TidyAround([joiner], parts[0], []);
      assert [joiner] + parts[0] + [] == [joiner] + parts[0];
      assert Marks([joiner]) && !WordToken([joiner][0]);
      TidyBoth([joiner] + parts[0], JoinTail(joiner, parts[1..]));
    }
  }

  lemma JoinTidy(conj: bool, parts: seq<seq<Token>>)
    requires AllTidy(parts)
    ensures Tidy(EmitJoin(conj, parts))
  {
    hide Forbidden, Tidy;
    if parts == [] {
      MarksTidy([]);
    } else {
      TailTidy(Joiner(conj), parts[1..]);
      TidyBoth(parts[0], JoinTail(Joiner(conj), parts[1..]));
    }
    TidyAround([LPar], JoinParts(Joiner(conj), parts), [RPar]);
  }

  lemma NegatedTidy(t: seq<Token>, when: bool)
    requires Tidy(t)
    ensures Tidy(Negated(t, when))
  {
    hide Forbidden;
    if !when {
      TidyAround([LPar], t, [RPar]);
      TidyBoth([Not], [LPar] + t + [RPar]);
      assert [Not] + ([LPar] + t + [RPar]) == Negated(t, when);
    }
  }

  lemma InTidy(left: Operand, items: seq<Json>)
    requires if left.Field? then KnownName(left.expr) else Scalar(left.value) && TextOk(left.value)
    requires forall i :: 0 <= i < |items| ==> Scalar(items[i]) && TextOk(items[i])
    ensures Tidy(EmitJoin(false, Arms(EmitOperand(left), items)))
  {
    hide Tidy, EmitOperand, TextOk, Scalar, KnownName;
    OperandTidy(left);
    var arms := Arms(EmitOperand(left), items);
    forall i | 0 <= i < |arms| ensures Tidy(arms[i]) {
      LiteralTidy(items[i]);
      RelationTidy(EmitOperand(left), "==", Literal(items[i]));
    }
    JoinTidy(false, arms);
  }

  lemma {:induction false} GuardTidy(g: Guard)
    requires Wf(g) && Lawful(g)
    ensures Tidy(Emit(g))
    decreases g
  {
    hide Tidy, KnownName, TextOk, EmitOperand;
    match g
    case Test(id, left, op, value) =>
      if op == "in" {
        InTidy(left, value.items);
        assert Emit(g) == EmitJoin(false, Arms(EmitOperand(left), value.items));
      } else {
        OperandTidy(left);
        AnchorTidy(KnobName(id), value);
        RelationTidy(EmitOperand(left), op, Anchor(KnobName(id), value));
      }
    case Join(conj, inputs) =>
      var parts := EmitParts(inputs);
      forall i | 0 <= i < |inputs| ensures Tidy(parts[i]) {
        GuardTidy(inputs[i].guard);
        NegatedTidy(Emit(inputs[i].guard), inputs[i].when);
        assert parts[i] == EmitSigned(inputs[i]);
      }
      JoinTidy(conj, parts);
  }

  // ---------- text against knobs ----------

  ghost predicate ForbiddenName(ks: set<Knob>) {
    exists k :: k in ks && Forbidden(k.0)
  }

  /** Over tidy texts that read the knobs `ks` and call the bridge for nothing else, the scan finds
  something exactly when it finds it in the name of one of those knobs. */
  lemma DirtyIsForbiddenName(texts: seq<seq<Token>>, ks: set<Knob>)
    requires AllTidy(texts) && AllCallOnly(texts, ks) && forall k :: SomeReads(texts, k) <==> k in ks
    ensures (exists x :: 0 <= x < |texts| && Dirty(texts[x])) <==> ForbiddenName(ks)
  {
    hide Forbidden, Bridge, StandsAt;
    if x :| 0 <= x < |texts| && Dirty(texts[x]) {
      var t := texts[x];
      var i :| 0 <= i < |t| && t[i].Text? && Forbidden(t[i].s);
      assert CallsOnly(t, ks) && CallsOne(t, i - 2, ks);
      var k :| k in ks && StandsAt(t, i - 2, Bridge(k));
      BridgeName(t, i - 2, k);
    }
    if k :| k in ks && Forbidden(k.0) {
      assert SomeReads(texts, k);
      var x :| 0 <= x < |texts| && BlueprintKnobs.Reads(texts[x], k);
      var i: nat :| StandsAt(texts[x], i, Bridge(k));
      BridgeName(texts[x], i, k);
      assert Dirty(texts[x]);
    }
  }

  lemma BridgeName(t: seq<Token>, i: nat, k: Knob)
    requires StandsAt(t, i, Bridge(k))
    ensures i + 2 < |t| && t[i + 2] == Text(k.0)
  {
    BridgeShape(k);
    assert t[i..i + |Bridge(k)|][2] == t[i + 2];
  }

  // ---------- what the first two stages leave ----------

  lemma ProvidedLawful(bp: Blueprint, g: Graph, id: Id, o: Operand)
    requires StructureOk(bp, g) && SemanticsOk(bp, g) && Find(bp.nodes, id).Some? && IsKind(g, id, Source)
    requires Provides(Find(bp.nodes, id).value, o)
    ensures if o.Field? then KnownName(o.expr) else Scalar(o.value) && TextOk(o.value)
  {
    hide StructureOk, SemanticsOk;
    var n := Find(bp.nodes, id).value;
    InIds(bp.nodes, n);
    NodeAt(bp, g, id);
    assert SourceParams(n);
  }

  lemma LeftLawful(bp: Blueprint, g: Graph, n: Node, o: Operand)
    requires StructureOk(bp, g) && SemanticsOk(bp, g) && LeftSide(bp, g, n, o)
    ensures if o.Field? then KnownName(o.expr) else Scalar(o.value) && TextOk(o.value)
  {
    hide StructureOk, SemanticsOk;
    if "field" !in n.params {
      var ins := Outs(g.incoming, n.id);
      OperandKind(g, ins);
      ProvidedLawful(bp, g, Operands(g, ins)[0], o);
    }
  }

  lemma ConditionAt(bp: Blueprint, g: Graph, id: Id)
    requires StructureOk(bp, g) && SemanticsOk(bp, g) && Find(bp.nodes, id).Some? && IsKind(g, id, Condition)
    ensures ConditionParams(g, Find(bp.nodes, id).value)
  {
    hide StructureOk, SemanticsOk;
    InIds(bp.nodes, Find(bp.nodes, id).value);
    NodeAt(bp, g, id);
  }

  lemma {:induction false} UnfoldedLawful(bp: Blueprint, g: Graph, id: Id, t: Guard)
    requires StructureOk(bp, g) && SemanticsOk(bp, g) && Unfolds(bp, g, id, t)
    ensures Lawful(t)
    decreases t
  {
    hide StructureOk, SemanticsOk, LeftSide, KnownName, Forbidden;
    match t
    case Test(_, left, _, _) =>
      LeftLawful(bp, g, Find(bp.nodes, id).value, left);
      ConditionAt(bp, g, id);
    case Join(_, inputs) =>
      forall i | 0 <= i < |inputs| ensures Lawful(inputs[i].guard) {
        UnfoldedLawful(bp, g, Outs(g.incoming, id)[i].0, inputs[i].guard);
      }
  }

  lemma ActionAt(bp: Blueprint, g: Graph, action: Node)
    requires StructureOk(bp, g) && SemanticsOk(bp, g) && action in bp.nodes && WiredAction(g, action)
    ensures ActionParams(action)
  {
    var i :| 0 <= i < |bp.nodes| && bp.nodes[i] == action;
    assert ParamsOk(g, bp.nodes[i]);
  }

  ghost predicate AllLawful(gs: seq<Signed>) {
    forall i :: 0 <= i < |gs| ==> Lawful(gs[i].guard)
  }

  lemma GuardsTidy(steps: seq<Step>, gs: seq<Signed>)
    requires StepsAre(steps, gs) && AllLawful(gs)
    ensures AllTidy(GuardTexts(steps))
  {
    hide Tidy, Lawful, Wf;
    forall i | 0 <= i < |steps| ensures Tidy(GuardTexts(steps)[i]) {
      GuardTidy(gs[i].guard);
      NegatedTidy(steps[i].0, steps[i].1);
    }
  }

  lemma PriceTidy(action: Node, steps: seq<Step>, gs: seq<Signed>)
    requires StepsAre(steps, gs) && AllLawful(gs) && ActionParams(action) && OrderCall(action, steps).Some?
    ensures AllTidy(Optional(OrderCall(action, steps).value.price))
  {
    hide Tidy;
    if "price" in action.params {
      AnchorTidy(action.id + "_price", action.params["price"]);
    } else {
      var j := InheritedPrice(steps, gs);
      if j < |gs| {
        var c := gs[j].guard;
        assert Lawful(c) && Wf(c) && c.op != "in";
        AnchorTidy(KnobName(c.id), c.value);
      }
    }
  }

  lemma CallTidy(action: Node, steps: seq<Step>, gs: seq<Signed>)
    requires StepsAre(steps, gs) && AllLawful(gs) && ActionParams(action)
    ensures AllTidy(CallTexts(OrderCall(action, steps)))
  {
    hide Tidy, StepsAre;
    if OrderCall(action, steps).Some? {
      PriceTidy(action, steps, gs);
      if "budget_ratio" in action.params {
        AnchorTidy(action.id + "_budget_ratio", action.params["budget_ratio"]);
      }
    }
  }

  lemma ReversedLawful(gs: seq<Signed>)
    requires AllLawful(gs)
    ensures AllLawful(Reverse(gs))
  {
  }

  lemma ProgramTidy(p: Program, action: Node, gs: seq<Signed>)
    requires StepsAre(p.steps, gs) && AllLawful(gs) && ActionParams(action) && p.call == OrderCall(action, Reverse(p.steps))
    ensures AllTidy(Texts(p))
  {
    hide Tidy, StepsAre, AllLawful;
    GuardsTidy(p.steps, gs);
    ReversedSteps(p.steps, gs);
    ReversedLawful(gs);
    CallTidy(action, Reverse(p.steps), Reverse(gs));
  }

  // ---------- the ids behind the names ----------

  lemma SuffixClean(param: string)
    requires IsParam(param)
    ensures !Forbidden("_" + param)
  {
    hide Forbidden;
    if param == "value" {
      NothingForbidden("_" + "value");
    } else if param == "price" {
      NothingForbidden("_" + "price");
    } else {
      NothingForbidden("_" + "budget_ratio");
    }
  }

  /** A wire name is forbidden exactly when the id in it is. */
  lemma NameForbidden(id: Id, param: string)
    requires IsParam(param)
    ensures Forbidden(id + "_" + param) <==> Forbidden(id)
  {
    hide Forbidden;
    SuffixClean(param);
    ForbiddenBoth(id, "_" + param);
    assert id + "_" + param == id + ("_" + param);
  }

  /** A number in use carries an id with a forbidden substring: a constant or condition on the chain,
  or the action with a number of its own, unless it is a hold. */
  ghost predicate ForbiddenIdInUse(bp: Blueprint, g: Graph, action: Node, gs: seq<Signed>) {
    || (exists n :: n in bp.nodes && NumericNode(g, n) && ShownBy(gs, n.id) && Forbidden(n.id))
    || (action.nodeType != "action_hold" && ActionTunables(action) != [] && Forbidden(action.id))
  }

  lemma NodeKnobForbidden(n: Node)
    requires "value" in n.params && n.params["value"].JNum?
    ensures Forbidden(NodeKnob(n).0) <==> Forbidden(n.id)
  {
    ValueName(n.id);
    NameForbidden(n.id, "value");
  }

  lemma ActionKnobForbidden(action: Node, k: Knob)
    requires k in ActionKnobs(action)
    ensures Forbidden(k.0) <==> Forbidden(action.id)
  {
    hide Forbidden;
    NameForbidden(action.id, "price");
    NameForbidden(action.id, "budget_ratio");
  }

  lemma NamesAreIds(bp: Blueprint, g: Graph, action: Node, gs: seq<Signed>)
    requires NodesOk(bp.nodes) && AllUnfold(bp, g, gs)
    ensures ForbiddenName(ReadKnobs(action, gs)) <==> ForbiddenIdInUse(bp, g, action, gs)
  {
    hide Forbidden, NodesOk, AllUnfold, ShownBy, ActionKnobs, ActionTunables;
    ChainKnobs(bp, g, gs);
    if k :| k in ReadKnobs(action, gs) && Forbidden(k.0) {
      if k in Union(InputKnobs(gs)) {
        var n :| n in bp.nodes && NumericNode(g, n) && k == NodeKnob(n);
        NodeKnobForbidden(n);
        ChainShows(bp, g, gs, n);
      } else {
        ActionKnobForbidden(action, k);
        ActionExports(action, k);
        SomeTunable(ActionTunables(action), k);
      }
    }
    if n :| n in bp.nodes && NumericNode(g, n) && ShownBy(gs, n.id) && Forbidden(n.id) {
      NodeKnobForbidden(n);
      ChainShows(bp, g, gs, n);
      assert NodeKnob(n) in ReadKnobs(action, gs);
    }
    if action.nodeType != "action_hold" && ActionTunables(action) != [] && Forbidden(action.id) {
      var t := ActionTunables(action)[0];
      var k: Knob := (t.name, t.default);
      SomeTunable(ActionTunables(action), k);
      ActionExports(action, k);
      ActionKnobForbidden(action, k);
      assert k in ReadKnobs(action, gs);
    }
  }

  lemma SomeTunable(ts: seq<Tunable>, k: Knob)
    ensures k in Exported(ts) ==> ts != []
    ensures ts != [] && k == (ts[0].name, ts[0].default) ==> k in Exported(ts)
  {
    if ts != [] {
      assert ts[0] in ts;
    }
  }

  // ---------- the file ----------

  /** The pieces of a file: fixed text around the computed ones. */
  function Woven(frame: seq<string>, texts: seq<string>): string
    requires |frame| == |texts| + 1
  {
    if texts == [] then frame[0] else frame[0] + texts[0] + Woven(frame[1..], texts[1..])
  }

  /** Fixed text carries nothing forbidden and does not run into its neighbours. */
  ghost predicate FrameOk(frame: seq<string>) {
    forall i :: 0 <= i < |frame| ==>
                  && frame[i] != "" && !Letter(frame[i][0]) && !Letter(frame[i][|frame[i]| - 1])
                  && !Forbidden(frame[i])
  }

  lemma {:induction false} WovenScan(frame: seq<string>, texts: seq<string>)
    requires |frame| == |texts| + 1 && FrameOk(frame)
    ensures Forbidden(Woven(frame, texts)) <==> exists i :: 0 <= i < |texts| && Forbidden(texts[i])
    ensures Woven(frame, texts) != "" && !Letter(Woven(frame, texts)[0])
    decreases |texts|
  {
    hide Forbidden, Letter;
    if texts != [] {
      var more := Woven(frame[1..], texts[1..]);
      WovenScan(frame[1..], texts[1..]);
      ForbiddenBoth(frame[0], texts[0]);
      ForbiddenBoth(frame[0] + texts[0], more);
      assert texts == [texts[0]] + texts[1..];
      if i :| 0 <= i < |texts| && Forbidden(texts[i]) {
        assert i > 0 ==> Forbidden(texts[1..][i - 1]);
      }
    }
  }

  /** How the fixed text is laid out around the name and the computed texts of a program. */
  type Layout = Program -> seq<string>

  ghost predicate LayoutOk(layout: Layout) {
    forall p: Program :: |layout(p)| == |Texts(p)| + 2 && FrameOk(layout(p))
  }

  function FileTexts(bp: Blueprint, p: Program, num: Numerals): seq<string> {
    [bp.name] + seq(|Texts(p)|, x requires 0 <= x < |Texts(p)| => Spelled(Texts(p)[x], num))
  }

  function File(bp: Blueprint, p: Program, layout: Layout, num: Numerals): string
    requires |layout(p)| == |Texts(p)| + 2
  {
    Woven(layout(p), FileTexts(bp, p, num))
  }

  lemma FileScan(bp: Blueprint, p: Program, layout: Layout, num: Numerals)
    requires LayoutOk(layout) && Decimal(num) && !Forbidden(bp.name) && AllTidy(Texts(p))
    ensures Forbidden(File(bp, p, layout, num)) <==> exists x :: 0 <= x < |Texts(p)| && Dirty(Texts(p)[x])
  {
    hide Forbidden, Dirty, FrameOk, Spelled, Decimal, Texts, Woven;
    var texts, file := Texts(p), FileTexts(bp, p, num);
    WovenScan(layout(p), file);
    forall x | 0 <= x < |texts| ensures Forbidden(file[x + 1]) <==> Dirty(texts[x]) {
      assert Tidy(texts[x]);
      SpelledScan(texts[x], num);
    }
    if x :| 0 <= x < |texts| && Dirty(texts[x]) {
      assert Forbidden(file[x + 1]);
    }
    if i :| 0 <= i < |file| && Forbidden(file[i]) {
      assert i > 0 && Dirty(texts[i - 1]);
    }
  }

  /** The last scan refuses a compiled program exactly when the id of a number in use carries a
  forbidden substring. */
  lemma ScanRefusesIds(bp: Blueprint, g: Graph, p: Program, action: Node, chain: seq<(Id, bool)>, trees: map<Id, Guard>,
                       layout: Layout, num: Numerals)
    requires StructureOk(bp, g) && SemanticsOk(bp, g) && Compiled(bp, g, p, action, chain, trees)
    requires LayoutOk(layout) && Decimal(num)
    ensures forall k :: 0 <= k < |chain| ==> chain[k].0 in trees
    ensures Forbidden(File(bp, p, layout, num)) <==> ForbiddenIdInUse(bp, g, action, ChainGuards(chain, trees))
  {
    hide Forbidden, StepsAre, AllUnfold, AllPlain, AllTidy, AllLawful, Texts, ReadKnobs, LayoutOk, Decimal, ForbiddenName, ForbiddenIdInUse, File, SemanticsOk, AllCallOnly;
    StepsAreChain(bp, g, p.steps, chain, trees);
    ChainUnfolds(bp, g, Reverse(p.steps), chain, trees);
    var gs := ChainGuards(chain, trees);
    ChainKnobs(bp, g, gs);
    ProgramServes(p, action, gs);
    ActionAt(bp, g, action);
    ChainLawful(bp, g, gs);
    ProgramTidy(p, action, gs);
    DirtyIsForbiddenName(Texts(p), ReadKnobs(action, gs));
    FileScan(bp, p, layout, num);
    NamesAreIds(bp, g, action, gs);
  }

  lemma ChainLawful(bp: Blueprint, g: Graph, gs: seq<Signed>)
    requires StructureOk(bp, g) && SemanticsOk(bp, g) && AllUnfold(bp, g, gs)
    ensures AllLawful(gs)
  {
    hide StructureOk, SemanticsOk, Lawful;
    forall i | 0 <= i < |gs| ensures Lawful(gs[i].guard) {
      assert IsDrawing(bp, g, gs[i].guard);
      var id :| Unfolds(bp, g, id, gs[i].guard);
      UnfoldedLawful(bp, g, id, gs[i].guard);
    }
  }

  // ---------- the compiler ----------

  /** A program of the blueprint that the last scan lets through. */
  ghost predicate Passes(bp: Blueprint, g: Graph, p: Program, action: Node, chain: seq<(Id, bool)>, trees: map<Id, Guard>) {
    && StructureOk(bp, g) && SemanticsOk(bp, g) && Compiled(bp, g, p, action, chain, trees)
    && (forall k :: 0 <= k < |chain| ==> chain[k].0 in trees)
    && !ForbiddenIdInUse(bp, g, action, ChainGuards(chain, trees))
  }

  /** Both stages accept the blueprint, and no number in use has an id with a forbidden substring. */
  ghost predicate Compiles(bp: Blueprint) {
    exists g, p, action, chain, trees :: Passes(bp, g, p, action, chain, trees)
  }

  /** The third stage, last scan included. */
  method Generate(bp: Blueprint, g: Graph, layout: Layout, num: Numerals)
    returns (r: Result<(Program, string), ()>, ghost draft: Program, ghost action: Node, ghost chain: seq<(Id, bool)>, ghost trees: map<Id, Guard>)
    requires StructureOk(bp, g) && SemanticsOk(bp, g) && LayoutOk(layout) && Decimal(num)
    ensures Compiled(bp, g, draft, action, chain, trees) && forall k :: 0 <= k < |chain| ==> chain[k].0 in trees
    ensures CallFits(draft.call, action, ChainGuards(chain, trees))
    ensures r.Ok? <==> !ForbiddenIdInUse(bp, g, action, ChainGuards(chain, trees))
    ensures r.Ok? ==> r.value == (draft, File(bp, draft, layout, num)) && !Forbidden(r.value.1)
  {
    hide StructureOk, SemanticsOk, Forbidden, ForbiddenIdInUse, FrameOk, Compiled, CallFits;
    var p;
    p, action, chain, trees := Draft(bp, g);
    draft := p;
    CompiledCallFits(bp, g, p, action, chain, trees);
    ScanRefusesIds(bp, g, p, action, chain, trees, layout, num);
    var text := File(bp, p, layout, num);
    r := if Forbidden(text) then Err(()) else Ok((p, text));
  }

  lemma OneAction(bp: Blueprint, g: Graph, a: Node, b: Node)
    requires OneWiredAction(g, bp.nodes) && a in bp.nodes && b in bp.nodes && WiredAction(g, a) && WiredAction(g, b)
    ensures a == b
  {
    var i, j :| 0 <= i < |bp.nodes| && 0 <= j < |bp.nodes| && bp.nodes[i] == a && bp.nodes[j] == b;
    assert WiredAction(g, bp.nodes[i]) && WiredAction(g, bp.nodes[j]);
  }

  /** What a blueprint compiles to has one chain of guards. */
  lemma OneChain(bp: Blueprint, g: Graph, p: Program, action: Node, chain: seq<(Id, bool)>, trees: map<Id, Guard>,
                 p': Program, action': Node, chain': seq<(Id, bool)>, trees': map<Id, Guard>)
    requires StructureOk(bp, g) && Compiled(bp, g, p, action, chain, trees) && Compiled(bp, g, p', action', chain', trees')
    ensures action == action' && chain == chain' && (forall k :: 0 <= k < |chain| ==> chain[k].0 in trees && chain[k].0 in trees')
    ensures ChainGuards(chain, trees) == ChainGuards(chain', trees')
  {
    hide HeaderOk, NodesOk, EdgesOk, GraphOf, OneWiredAction, WiredAction, ShortPaths, Acyclic, Connected, ActionOk, ConditionShapeOk, GateOk;
    hide Tabled, WholeTrail, StepsOf, ChainGuards;
    OneAction(bp, g, action, action');
    OneTrail(g, action.id, chain, chain');
    OneTree(bp, g, chain, Reverse(p.steps), trees, Reverse(p'.steps), trees');
    SameGuards(chain, trees, trees');
  }

  lemma OneTree(bp: Blueprint, g: Graph, chain: seq<(Id, bool)>, steps: seq<Step>, trees: map<Id, Guard>, steps': seq<Step>, trees': map<Id, Guard>)
    requires StepsOf(bp, g, chain, steps, trees) && StepsOf(bp, g, chain, steps', trees')
    ensures forall k :: 0 <= k < |chain| ==> chain[k].0 in trees && chain[k].0 in trees' && trees[chain[k].0] == trees'[chain[k].0]
  {
    hide Unfolds, Wf;
    forall k | 0 <= k < |chain| ensures chain[k].0 in trees && chain[k].0 in trees' && trees[chain[k].0] == trees'[chain[k].0] {
      assert StepOf(bp, g, chain[k], steps[k], trees) && StepOf(bp, g, chain[k], steps'[k], trees');
      UnfoldsOnce(bp, g, chain[k].0, trees[chain[k].0], trees'[chain[k].0]);
    }
  }

  lemma SameGuards(chain: seq<(Id, bool)>, trees: map<Id, Guard>, trees': map<Id, Guard>)
    requires forall k :: 0 <= k < |chain| ==> chain[k].0 in trees && chain[k].0 in trees' && trees[chain[k].0] == trees'[chain[k].0]
    ensures ChainGuards(chain, trees) == ChainGuards(chain, trees')
  {
    var n := |chain|;
    var a := seq(n, k requires 0 <= k < n => Signed(trees[chain[k].0], chain[k].1));
    var b := seq(n, k requires 0 <= k < n => Signed(trees'[chain[k].0], chain[k].1));
    assert a == b;
    assert ChainGuards(chain, trees) == Reverse(a) && ChainGuards(chain, trees') == Reverse(b);
  }

  datatype Refusal = Structure(fault: Fault) | Semantics(id: Id) | Scan

  /** All three stages: a blueprint compiles exactly when the first two accept it and no number in use
  has an id with a forbidden substring; and the program it compiles to places the order its one wired
  action asks for. */
  method Compile(bp: Blueprint, layout: Layout, num: Numerals) returns (r: Result<(Program, string), Refusal>)
    requires LayoutOk(layout) && Decimal(num)
    ensures r.Ok? <==> Compiles(bp)
    ensures r.Ok? ==> exists g, action, chain, trees ::
              Passes(bp, g, r.value.0, action, chain, trees) && CallFits(r.value.0.call, action, ChainGuards(chain, trees))
    ensures r.Ok? ==> r.value.1 == File(bp, r.value.0, layout, num) && !Forbidden(r.value.1)
  {
    hide StructureOk, SemanticsOk, Forbidden, ForbiddenIdInUse, Compiled, LayoutOk, Decimal, CallFits;
    var graph := ValidateStructure(bp);
    if graph.Err? {
      return Err(Structure(graph.error));
    }
    GraphIsIndexed(bp, graph.value);
    var bad := ValidateSemantics(bp, graph.value);
    if bad.Some? {
      forall g | StructureOk(bp, g) ensures !SemanticsOk(bp, g) {
        OneGraph(bp, g, graph.value);
      }
      return Err(Semantics(bad.value));
    }
    var made, draft, action, chain, trees := Generate(bp, graph.value, layout, num);
    if made.Err? {
      forall g, p, action', chain', trees' ensures !Passes(bp, g, p, action', chain', trees') {
        if Passes(bp, g, p, action', chain', trees') {
          OneGraph(bp, g, graph.value);
          OneChain(bp, g, draft, action, chain, trees, p, action', chain', trees');
        }
      }
      return Err(Scan);
    }
    assert Passes(bp, graph.value, made.value.0, action, chain, trees);
    return Ok(made.value);
  }

  lemma GraphIsIndexed(bp: Blueprint, g: Graph)
    requires StructureOk(bp, g)
    ensures forall i :: 0 <= i < |bp.nodes| ==> bp.nodes[i].id in g.kinds
  {
  }

  lemma OneGraph(bp: Blueprint, g: Graph, g': Graph)
    requires StructureOk(bp, g) && StructureOk(bp, g')
    ensures g == g'
  {
    GraphUnique(bp, g, g');
  }

  // ---------- the name in its comment ----------

  /** Where a one-line comment that starts at the front of the text ends. */
  function LineEnd(text: string): (n: nat)
    ensures n <= |text|
  {
    if text == "" || text[0] == '\n' || text[0] == '\r' then 0 else 1 + LineEnd(text[1..])
  }

  predicate OnOneLine(s: string) {
    '\n' !in s && '\r' !in s
  }

  lemma {:induction false} LineEndBoth(a: string, b: string)
    ensures OnOneLine(a) ==> LineEnd(a + b) == |a| + LineEnd(b)
    ensures !OnOneLine(a) ==> LineEnd(a + b) == LineEnd(a) < |a|
    decreases |a|
  {
    if a == "" {
      assert a + b == b;
    } else {
      assert (a + b)[1..] == a[1..] + b && a == [a[0]] + a[1..];
      LineEndBoth(a[1..], b);
    }
  }

  /** The first line of the file, up to the name. */
  const COMMENT := "-- generated by blitzkrieg-core " + "from blueprint \""

  lemma CommentOnOneLine()
    ensures OnOneLine(COMMENT)
  {
    var a, b := "-- generated by blitzkrieg-core ", "from blueprint \"";
    assert forall i :: 0 <= i < |a| ==> a[i] != '\n' && a[i] != '\r';
    assert forall i :: 0 <= i < |b| ==> b[i] != '\n' && b[i] != '\r';
  }

  /** The comment the name is written into holds all of it exactly when the name is on one line. */
  lemma CommentHoldsName(name: string, after: string)
    ensures |COMMENT| + |name| <= LineEnd(COMMENT + name + after) <==> OnOneLine(name)
  {
    CommentOnOneLine();
    assert COMMENT + name + after == COMMENT + (name + after);
    LineEndBoth(COMMENT, name + after);
    LineEndBoth(name, after);
  }

  /** Of a name the stages ask only that it is not blank and carries nothing forbidden. */
  lemma AnyNameAccepted(bp: Blueprint, g: Graph, name: string)
    requires StructureOk(bp, g) && SemanticsOk(bp, g)
    ensures var renamed := bp.(name := name);
            && (StructureOk(renamed, g) <==> !T.Blank(name) && !Forbidden(name))
            && SemanticsOk(renamed, g)
  {
    hide NodesOk, EdgesOk, Forbidden, T.Blank, ParamsOk, OneWiredAction, Connected, ActionOk, ConditionShapeOk, GateOk, ShortPaths, Acyclic, KindsOf, IndexedIn, IndexedOut;
  }
}
