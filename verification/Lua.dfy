/** Lua, as far as generated guards use it. */
module Lua {
  import opened Wrappers

  /* String literals, expressions with the precedence of section 3.4.8 of the Lua 5.4 Reference Manual,
  and their values. */

  // ---------- string literals ----------

  function Digit(n: nat): char
    requires n < 10
  {
    ['0', '1', '2', '3', '4', '5', '6', '7', '8', '9'][n]
  }

  function DigitValue(c: char): Option<nat> {
    if '0' <= c <= '9' then Some(c as int - '0' as int) else None
  }

  /** How one character is written inside a quoted literal. */
  function Escape(c: char): string {
    if c == '"' then "\\\""
    else if c == '\\' then "\\\\"
    else if c == '\n' then "\\n"
    else if c == '\r' then "\\r"
    else if c == '\t' then "\\t"
    else if (c as int) < 0x20 then
      var n := c as int;
      ['\\', Digit(n / 100), Digit(n / 10 % 10), Digit(n % 10)]
    else [c]
  }

  function EscapeAll(s: string): string {
    if s == "" then "" else Escape(s[0]) + EscapeAll(s[1..])
  }

  /** A quoted literal, as the code generator writes it. */
  method QuoteString(s: string) returns (text: string)
    ensures text == "\"" + EscapeAll(s) + "\""
  {
    text := "\"";
    for i := 0 to |s|
      invariant text + EscapeAll(s[i..]) == "\"" + EscapeAll(s)
    {
      assert s[i..][0] == s[i] && s[i..][1..] == s[i + 1..];
      text := text + Escape(s[i]);
    }
    text := text + "\"";
  }

  /** Reading a literal after its opening quote, as section 3.1 of the manual says: the content
  and what follows the closing quote, or nothing for a malformed literal. */
  function ReadString(t: string): Option<(string, string)>
    decreases |t|
  {
    if t == "" || t[0] == '\n' || t[0] == '\r' then None
    else if t[0] == '"' then Some(("", t[1..]))
    else if t[0] != '\\' then Prepend(t[0], ReadString(t[1..]))
    else if |t| < 2 then None
    else if t[1] == '"' || t[1] == '\\' then Prepend(t[1], ReadString(t[2..]))
    else if t[1] == 'n' then Prepend('\n', ReadString(t[2..]))
    else if t[1] == 'r' then Prepend('\r', ReadString(t[2..]))
    else if t[1] == 't' then Prepend('\t', ReadString(t[2..]))
    else if |t| >= 4 && DigitValue(t[1]).Some? && DigitValue(t[2]).Some? && DigitValue(t[3]).Some? then
      var n := DigitValue(t[1]).value * 100 + DigitValue(t[2]).value * 10 + DigitValue(t[3]).value;
      if n < 256 then Prepend(n as char, ReadString(t[4..])) else None
    else None
  }

  function Prepend(c: char, r: Option<(string, string)>): Option<(string, string)> {
    match r
    case None => None
    case Some((s, rest)) => Some(([c] + s, rest))
  }

  lemma ReadEscaped(c: char, t: string)
    ensures ReadString(Escape(c) + t) == Prepend(c, ReadString(t))
  {
    var e := Escape(c);
    assert (e + t)[|e|..] == t;
    if c != '"' && c != '\\' && c != '\n' && c != '\r' && c != '\t' && (c as int) < 0x20 {
      ReadControl(c, t);
    }
  }

  lemma ReadControl(c: char, t: string)
    requires (c as int) < 0x20 && c != '\n' && c != '\r' && c != '\t'
    ensures ReadString(Escape(c) + t) == Prepend(c, ReadString(t))
  {
    hide Digit, DigitValue;
    var n := c as int;
    assert n / 100 == 0 && n / 10 < 10;
    DigitReads(n / 100);
    DigitReads(n / 10 % 10);
    DigitReads(n % 10);
    DigitApart(n / 100);
    var text := Escape(c) + t;
    assert text[4..] == t;
  }

  lemma DigitApart(n: nat)
    requires n < 10
    ensures Digit(n) != '"' && Digit(n) != '\\' && Digit(n) != 'n' && Digit(n) != 'r' && Digit(n) != 't'
  {
  }

  lemma DigitReads(n: nat)
    requires n < 10
    ensures DigitValue(Digit(n)) == Some(n)
  {
  }

  /** A quoted literal reads back as the string it quotes, whatever the string. */
  lemma {:induction false} QuotedReadsBack(s: string, rest: string)
    ensures ReadString(EscapeAll(s) + "\"" + rest) == Some((s, rest))
  {
    if s == "" {
      assert EscapeAll(s) + "\"" + rest == "\"" + rest;
    } else {
      QuotedReadsBack(s[1..], rest);
      var t := EscapeAll(s[1..]) + "\"" + rest;
      assert EscapeAll(s) + "\"" + rest == Escape(s[0]) + t;
      ReadEscaped(s[0], t);
      assert s == [s[0]] + s[1..];
    }
  }

  // ---------- expressions ----------

  datatype Token =
    | Name(name: string)
    | Number(n: real)
    | Text(s: string)
    | True | False | Nil
    | Rel(op: string)
    | Minus | And | Or | Not | LPar | RPar | Comma

  datatype Expr =
    | ENum(n: real)
    | EText(s: string)
    | EBool(b: bool)
    | ENil
    | EVar(name: string)
    | ECall(fn: string, args: seq<Expr>)
    | ENeg(e: Expr)
    | ENot(e: Expr)
    | ERel(op: string, l: Expr, r: Expr)
    | EAnd(l: Expr, r: Expr)
    | EOr(l: Expr, r: Expr)

  /** The relational operators of Lua.  Inequality is spelled `~=`. */
  predicate IsRel(op: string) {
    op == "<" || op == ">" || op == "<=" || op == ">=" || op == "~=" || op == "=="
  }

  type Parse<T> = Option<(T, seq<Token>)>

  predicate Shorter<T>(r: Parse<T>, t: seq<Token>) {
    r.Some? ==> |r.value.1| < |t|
  }

  /** `or` binds loosest, then `and`, then the comparisons, then the unary operators; binary
  operators of one level group to the left. */
  function ParseOr(t: seq<Token>): (r: Parse<Expr>)
    ensures Shorter(r, t)
    decreases |t|, 6
  {
    match ParseAnd(t)
    case None => None
    case Some((e, rest)) => ParseOrTail(e, rest)
  }

  function ParseOrTail(l: Expr, t: seq<Token>): (r: Parse<Expr>)
    ensures r.Some? ==> |r.value.1| <= |t|
    decreases |t|, 5
  {
    if t == [] || t[0] != Or then Some((l, t))
    else
      match ParseAnd(t[1..])
      case None => None
      case Some((e, rest)) => ParseOrTail(EOr(l, e), rest)
  }

  function ParseAnd(t: seq<Token>): (r: Parse<Expr>)
    ensures Shorter(r, t)
    decreases |t|, 4
  {
    match ParseCmp(t)
    case None => None
    case Some((e, rest)) => ParseAndTail(e, rest)
  }

  function ParseAndTail(l: Expr, t: seq<Token>): (r: Parse<Expr>)
    ensures r.Some? ==> |r.value.1| <= |t|
    decreases |t|, 3
  {
    if t == [] || t[0] != And then Some((l, t))
    else
      match ParseCmp(t[1..])
      case None => None
      case Some((e, rest)) => ParseAndTail(EAnd(l, e), rest)
  }

  function ParseCmp(t: seq<Token>): (r: Parse<Expr>)
    ensures Shorter(r, t)
    decreases |t|, 2
  {
    match ParseUnary(t)
    case None => None
    case Some((e, rest)) => ParseCmpTail(e, rest)
  }

  predicate StartsRel(t: seq<Token>) {
    t != [] && t[0].Rel? && IsRel(t[0].op)
  }

  function ParseCmpTail(l: Expr, t: seq<Token>): (r: Parse<Expr>)
    ensures r.Some? ==> |r.value.1| <= |t|
    decreases |t|, 1
  {
    if !StartsRel(t) then Some((l, t))
    else
      match ParseUnary(t[1..])
      case None => None
      case Some((e, rest)) => ParseCmpTail(ERel(t[0].op, l, e), rest)
  }

  function ParseUnary(t: seq<Token>): (r: Parse<Expr>)
    ensures Shorter(r, t)
    decreases |t|, 0
  {
    if t == [] then None
    else
      match t[0]
      case Not => (match ParseUnary(t[1..]) case None => None case Some((e, rest)) => Some((ENot(e), rest)))
      case Minus => (match ParseUnary(t[1..]) case None => None case Some((e, rest)) => Some((ENeg(e), rest)))
      case Number(n) => Some((ENum(n), t[1..]))
      case Text(s) => Some((EText(s), t[1..]))
      case True => Some((EBool(true), t[1..]))
      case False => Some((EBool(false), t[1..]))
      case Nil => Some((ENil, t[1..]))
      case LPar =>
        (match ParseOr(t[1..])
         case None => None
         case Some((e, rest)) => if rest != [] && rest[0] == RPar then Some((e, rest[1..])) else None)
      case Name(x) =>
        if |t| < 2 || t[1] != LPar then Some((EVar(x), t[1..]))
        else
          (match ParseArgs(t[2..])
           case None => None
           case Some((args, rest)) => Some((ECall(x, args), rest)))
      case _ => None
  }

  /** One or more arguments up to the closing parenthesis. */
  function ParseArgs(t: seq<Token>): (r: Parse<seq<Expr>>)
    ensures Shorter(r, t)
    decreases |t|, 7
  {
    match ParseOr(t)
    case None => None
    case Some((e, rest)) =>
      if rest == [] then None
      else if rest[0] == RPar then Some(([e], rest[1..]))
      else if rest[0] == Comma then
        (match ParseArgs(rest[1..]) case None => None case Some((es, rest')) => Some(([e] + es, rest')))
      else None
  }

  /** The tokens are exactly one expression, and it is `e`. */
  predicate Reads(t: seq<Token>, e: Expr) {
    ParseOr(t) == Some((e, []))
  }

  // ---------- values ----------

  datatype Value = VNum(n: real) | VText(s: string) | VBool(b: bool) | VNil

  /** Variables, and the hot parameters behind the generated `__param` bridge. */
  datatype Env = Env(vars: map<string, Value>, hot: map<string, real>)

  predicate Truthy(v: Value) {
    v != VNil && v != VBool(false)
  }

  /** Orderings need two numbers or two strings; anything else is a runtime error. */
  function Compare(op: string, l: Value, r: Value, textLess: (string, string) -> bool): Option<bool> {
    if op == "==" then Some(l == r)
    else if op == "~=" then Some(l != r)
    else
      match (l, r)
      case (VNum(a), VNum(b)) =>
        if op == "<" then Some(a < b) else if op == "<=" then Some(a <= b)
        else if op == ">" then Some(a > b) else if op == ">=" then Some(a >= b) else None
      case (VText(a), VText(b)) =>
        if op == "<" then Some(textLess(a, b)) else if op == "<=" then Some(!textLess(b, a))
        else if op == ">" then Some(textLess(b, a)) else if op == ">=" then Some(!textLess(a, b)) else None
      case _ => None
  }

  /** The value of an expression; nothing when its evaluation raises an error. */
  function Eval(e: Expr, env: Env, textLess: (string, string) -> bool): Option<Value> {
    match e
    case ENum(n) => Some(VNum(n))
    case EText(s) => Some(VText(s))
    case EBool(b) => Some(VBool(b))
    case ENil => Some(VNil)
    case EVar(x) => Some(if x in env.vars then env.vars[x] else VNil)
    case ECall(fn, args) =>
      if fn == "__param" && |args| == 2 && args[0].EText? then
        if args[0].s in env.hot then Some(VNum(env.hot[args[0].s])) else Eval(args[1], env, textLess)
      else None
    case ENeg(a) =>
      (match Eval(a, env, textLess) case Some(VNum(n)) => Some(VNum(0.0 - n)) case _ => None)
    case ENot(a) =>
      (match Eval(a, env, textLess) case Some(v) => Some(VBool(!Truthy(v))) case None => None)
    case ERel(op, l, r) =>
      (match (Eval(l, env, textLess), Eval(r, env, textLess))
       case (Some(a), Some(b)) =>
         (match Compare(op, a, b, textLess) case Some(c) => Some(VBool(c)) case None => None)
       case _ => None)
    case EAnd(l, r) =>
      (match Eval(l, env, textLess) case Some(v) => if Truthy(v) then Eval(r, env, textLess) else Some(v) case None => None)
    case EOr(l, r) =>
      (match Eval(l, env, textLess) case Some(v) => if Truthy(v) then Some(v) else Eval(r, env, textLess) case None => None)
  }
}
