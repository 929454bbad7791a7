/** The nearest-flag search of `cli.rs`. */
module CommandLine {
  import opened Wrappers

  /* Edit distance, subsequence, the best suggestion, and what becomes of an unknown argument. */

  // ---------- edit distance ----------

  function Min(a: nat, b: nat): nat {
    if a <= b then a else b
  }

  function Cost(x: char, y: char): nat {
    if x == y then 0 else 1
  }

  /** Levenshtein distance, by its recurrence on last characters. */
  function Lev(a: string, b: string): nat
    decreases |a| + |b|
  {
    if a == "" then |b|
    else if b == "" then |a|
    else
      var a', b' := a[..|a| - 1], b[..|b| - 1];
      Min(Min(Lev(a', b') + Cost(a[|a| - 1], b[|b| - 1]), Lev(a, b') + 1), Lev(a', b) + 1)
  }

  lemma {:induction false} LevSymmetric(a: string, b: string)
    ensures Lev(a, b) == Lev(b, a)
    decreases |a| + |b|
  {
    if a != "" && b != "" {
      var a', b' := a[..|a| - 1], b[..|b| - 1];
      LevSymmetric(a', b');
      LevSymmetric(a, b');
      LevSymmetric(a', b);
    }
  }

  lemma {:induction false} LevZero(a: string)
    ensures Lev(a, a) == 0
    decreases |a|
  {
    if a != "" {
      LevZero(a[..|a| - 1]);
    }
  }

  /** No distance only between equal strings. */
  lemma {:induction false} LevZeroOnlyEqual(a: string, b: string)
    requires Lev(a, b) == 0
    ensures a == b
    decreases |a| + |b|
  {
    if a != "" && b != "" {
      LevZeroOnlyEqual(a[..|a| - 1], b[..|b| - 1]);
      assert a == a[..|a| - 1] + [a[|a| - 1]] && b == b[..|b| - 1] + [b[|b| - 1]];
    }
  }

  /** One character changes a distance by at most one, and lengths bound it on both sides. */
  lemma {:induction false} LevBounds(a: string, b: string)
    ensures |a| <= |b| + Lev(a, b) && |b| <= |a| + Lev(a, b) && Lev(a, b) <= |a| + |b|
    decreases |a| + |b|
  {
    if a != "" && b != "" {
      var a', b' := a[..|a| - 1], b[..|b| - 1];
      LevBounds(a', b');
      LevBounds(a, b');
      LevBounds(a', b);
    }
  }

  lemma LevOfNothing(a: string, b: string)
    ensures a == "" ==> Lev(a, b) == |b|
    ensures b == "" ==> Lev(a, b) == |a|
  {
  }

  /** The recurrence: no more than any of the three, and one of them. */
  lemma LevStep(a: string, b: string)
    requires a != "" && b != ""
    ensures var a', b' := a[..|a| - 1], b[..|b| - 1];
            var swap := Lev(a', b') + Cost(a[|a| - 1], b[|b| - 1]);
            && Lev(a, b) <= swap && Lev(a, b) <= Lev(a, b') + 1 && Lev(a, b) <= Lev(a', b) + 1
            && (Lev(a, b) == swap || Lev(a, b) == Lev(a, b') + 1 || Lev(a, b) == Lev(a', b) + 1)
  {
  }

  /** The triangle inequality. */
  lemma {:induction false} LevTriangle(a: string, b: string, c: string)
    ensures Lev(a, c) <= Lev(a, b) + Lev(b, c)
    decreases |a| + |b| + |c|
  {
    hide Lev;
    if a == "" || b == "" || c == "" {
      LevOfNothing(a, b);
      LevOfNothing(b, c);
      LevOfNothing(a, c);
      LevBounds(a, b);
      LevBounds(b, c);
      LevBounds(a, c);
    } else {
      var a', b', c' := a[..|a| - 1], b[..|b| - 1], c[..|c| - 1];
      LevStep(a, b);
      LevStep(b, c);
      LevStep(a, c);
      if Lev(a, b) == Lev(a', b) + 1 {
        LevTriangle(a', b, c);
      } else if Lev(b, c) == Lev(b, c') + 1 {
        LevTriangle(a, b, c');
      } else if Lev(a, b) == Lev(a, b') + 1 {
        if Lev(b, c) == Lev(b', c) + 1 {
          LevTriangle(a, b', c);
        } else {
          LevTriangle(a, b', c');
        }
      } else if Lev(b, c) == Lev(b', c) + 1 {
        LevTriangle(a', b', c);
      } else {
        LevTriangle(a', b', c');
      }
    }
  }

  // ---------- what the distance counts ----------

  datatype Edit = Insert(at: nat, c: char) | Delete(at: nat) | Replace(at: nat, c: char)

  predicate Fits(e: Edit, s: string) {
    if e.Insert? then e.at <= |s| else e.at < |s|
  }

  function Edited(s: string, e: Edit): string
    requires Fits(e, s)
  {
    match e
    case Insert(at, c) => s[..at] + [c] + s[at..]
    case Delete(at) => s[..at] + s[at + 1..]
    case Replace(at, c) => s[..at] + [c] + s[at + 1..]
  }

  /** The edits, one after the other, make `b` of `a`. */
  predicate Makes(a: string, es: seq<Edit>, b: string)
    decreases |es|
  {
    if es == [] then a == b else Fits(es[0], a) && Makes(Edited(a, es[0]), es[1..], b)
  }

  /** A character common to both ends adds no distance. */
  lemma {:induction false} CommonEnd(a: string, b: string, t: string)
    ensures Lev(a + t, b + t) <= Lev(a, b)
    decreases |t|
  {
    if t == "" {
      assert a + t == a && b + t == b;
    } else {
      var init := t[..|t| - 1];
      CommonEnd(a, b, init);
      var x, y := a + t, b + t;
      assert x[..|x| - 1] == a + init && y[..|y| - 1] == b + init;
    }
  }

  lemma OneMore(a: string, c: char)
    ensures Lev(a, a + [c]) <= 1
  {
    LevZero(a);
    var b := a + [c];
    assert b[..|b| - 1] == a;
  }

  lemma OneOther(a: string, x: char, y: char)
    ensures Lev(a + [x], a + [y]) <= 1
  {
    LevZero(a);
    var p, q := a + [x], a + [y];
    assert p[..|p| - 1] == a && q[..|q| - 1] == a;
  }

  /** A text around one of its places. */
  lemma Around(s: string, at: nat)
    requires at < |s|
    ensures s == s[..at] + [s[at]] + s[at + 1..] == s[..at] + s[at..]
  {
  }

  lemma EditIsOneAway(s: string, e: Edit)
    requires Fits(e, s)
    ensures Lev(s, Edited(s, e)) <= 1
  {
    hide Lev;
    var head := s[..e.at];
    match e
    case Insert(at, c) =>
      OneMore(head, c);
      CommonEnd(head, head + [c], s[at..]);
      assert s == head + s[at..];
    case Delete(at) =>
      OneMore(head, s[at]);
      LevSymmetric(head, head + [s[at]]);
      CommonEnd(head + [s[at]], head, s[at + 1..]);
      Around(s, at);
    case Replace(at, c) =>
      OneOther(head, s[at], c);
      CommonEnd(head + [s[at]], head + [c], s[at + 1..]);
      Around(s, at);
  }

  /** No shorter list of edits does it. */
  lemma {:induction false} NoShorterEdits(a: string, es: seq<Edit>, b: string)
    requires Makes(a, es, b)
    ensures Lev(a, b) <= |es|
    decreases |es|
  {
    if es == [] {
      LevZero(a);
    } else {
      EditIsOneAway(a, es[0]);
      NoShorterEdits(Edited(a, es[0]), es[1..], b);
      LevTriangle(a, Edited(a, es[0]), b);
    }
  }

  lemma EditInFront(a: string, e: Edit, t: string)
    requires Fits(e, a)
    ensures Fits(e, a + t) && Edited(a + t, e) == Edited(a, e) + t
  {
    assert (a + t)[..e.at] == a[..e.at];
    assert (a + t)[e.at..] == a[e.at..] + t;
    if !e.Insert? {
      assert (a + t)[e.at + 1..] == a[e.at + 1..] + t;
    }
  }

  /** Edits of a text edit it the same way in front of anything. */
  lemma {:induction false} MakesInFront(a: string, es: seq<Edit>, b: string, t: string)
    requires Makes(a, es, b)
    ensures Makes(a + t, es, b + t)
    decreases |es|
  {
    hide Edited, Fits;
    if es != [] {
      MakesInFront(Edited(a, es[0]), es[1..], b, t);
      EditInFront(a, es[0], t);
    }
  }

  lemma {:induction false} MakesThen(a: string, es: seq<Edit>, b: string, e: Edit)
    requires Makes(a, es, b) && Fits(e, b)
    ensures Makes(a, es + [e], Edited(b, e))
    decreases |es|
  {
    hide Edited, Fits;
    if es == [] {
      assert (es + [e])[1..] == [];
    } else {
      MakesThen(Edited(a, es[0]), es[1..], b, e);
      assert (es + [e])[1..] == es[1..] + [e];
    }
  }

  lemma LastEdits(s: string, c: char)
    ensures Fits(Insert(|s|, c), s) && Edited(s, Insert(|s|, c)) == s + [c]
    ensures Fits(Delete(|s|), s + [c]) && Edited(s + [c], Delete(|s|)) == s
  {
  }

  lemma LastReplaced(s: string, x: char, y: char)
    ensures Fits(Replace(|s|, y), s + [x]) && Edited(s + [x], Replace(|s|, y)) == s + [y]
  {
    assert (s + [x])[..|s|] == s && (s + [x])[|s| + 1..] == "";
  }

  /** And one that long does. */
  lemma {:induction false} ShortestEdits(a: string, b: string) returns (es: seq<Edit>)
    ensures |es| == Lev(a, b) && Makes(a, es, b)
    decreases |a| + |b|
  {
    hide Edited, Fits;
    if a == "" && b == "" {
      es := [];
    } else if b != "" && (a == "" || Lev(a, b) == Lev(a, b[..|b| - 1]) + 1) {
      es := InsertLast(a, b);
    } else if a != "" && (b == "" || Lev(a, b) == Lev(a[..|a| - 1], b) + 1) {
      es := DeleteLast(a, b);
    } else {
      es := MatchLast(a, b);
    }
  }

  lemma InsertLast(a: string, b: string) returns (es: seq<Edit>)
    requires b != ""
    ensures |es| == Lev(a, b[..|b| - 1]) + 1 && Makes(a, es, b)
    decreases |a| + |b|, 0
  {
    hide Lev, Edited, Fits;
    var b', y := b[..|b| - 1], b[|b| - 1];
    es := ShortestEdits(a, b');
    LastEdits(b', y);
    MakesThen(a, es, b', Insert(|b'|, y));
    assert b' + [y] == b;
    es := es + [Insert(|b'|, y)];
  }

  lemma DeleteLast(a: string, b: string) returns (es: seq<Edit>)
    requires a != ""
    ensures |es| == Lev(a[..|a| - 1], b) + 1 && Makes(a, es, b)
    decreases |a| + |b|, 0
  {
    hide Lev, Edited, Fits;
    var a', x := a[..|a| - 1], a[|a| - 1];
    var rest := ShortestEdits(a', b);
    LastEdits(a', x);
    assert a' + [x] == a;
    es := [Delete(|a'|)] + rest;
    assert es[1..] == rest;
  }

  lemma MatchLast(a: string, b: string) returns (es: seq<Edit>)
    requires a != "" && b != ""
    ensures |es| == Lev(a[..|a| - 1], b[..|b| - 1]) + Cost(a[|a| - 1], b[|b| - 1]) && Makes(a, es, b)
    decreases |a| + |b|, 0
  {
    hide Lev, Edited, Fits;
    var a', b', x, y := a[..|a| - 1], b[..|b| - 1], a[|a| - 1], b[|b| - 1];
    es := ShortestEdits(a', b');
    MakesInFront(a', es, b', [x]);
    assert a' + [x] == a && b' + [y] == b;
    if x != y {
      LastReplaced(b', x, y);
      MakesThen(a, es, b' + [x], Replace(|b'|, y));
      es := es + [Replace(|b'|, y)];
    }
  }

  /** The distance is the least number of single-character edits. */
  lemma LevIsLeastEdits(a: string, b: string)
    ensures exists es :: Makes(a, es, b) && |es| == Lev(a, b)
    ensures forall es :: Makes(a, es, b) ==> Lev(a, b) <= |es|
  {
    var shortest := ShortestEdits(a, b);
    forall es | Makes(a, es, b) ensures Lev(a, b) <= |es| {
      NoShorterEdits(a, es, b);
    }
  }

  /** A finished row of the table: distances from one prefix of `a` to every prefix of `b`. */
  ghost predicate Row(row: seq<nat>, a: string, b: string, upTo: nat) {
    upTo <= |row| == |b| + 1 && forall j :: 0 <= j < upTo ==> row[j] == Lev(a, b[..j])
  }

  /** One row of the table from the one above it. */
  method NextRow(a: string, b: string, i: nat, prev: seq<nat>, cur0: seq<nat>) returns (cur: seq<nat>)
    requires i < |a| && Row(prev, a[..i], b, |b| + 1) && |cur0| == |b| + 1
    ensures Row(cur, a[..i + 1], b, |b| + 1)
  {
    cur := cur0[0 := i + 1];
    var x := a[..i + 1];
    assert b[..0] == "" && Lev(x, "") == i + 1;
    assert x[..i] == a[..i] && x[i] == a[i];
    for j := 0 to |b|
      invariant Row(cur, x, b, j + 1)
    {
      var y := b[..j + 1];
      assert y[..j] == b[..j] && y[j] == b[j] && |x| == i + 1 && |y| == j + 1;
      var d := Min(Min(prev[j] + Cost(a[i], b[j]), prev[j + 1] + 1), cur[j] + 1);
      assert Lev(x, y) == d;
      cur := cur[j + 1 := d];
    }
  }

  /** The two-row table computes the Levenshtein distance. */
  method EditDistance(a: string, b: string) returns (d: nat)
    ensures d == Lev(a, b)
  {
    var prev: seq<nat> := seq(|b| + 1, j requires 0 <= j < |b| + 1 => j);
    var cur: seq<nat> := seq(|b| + 1, j requires 0 <= j < |b| + 1 => 0);
    assert a[..0] == "";
    for i := 0 to |a|
      invariant Row(prev, a[..i], b, |b| + 1) && |cur| == |b| + 1
    {
      cur := NextRow(a, b, i, prev, cur);
      prev, cur := cur, prev;
    }
    assert a[..|a|] == a && b[..|b|] == b;
    d := prev[|b|];
  }

  // ---------- subsequences ----------

  /** `at` places every character of `needle` in `hay`, in order. */
  ghost predicate Placed(needle: string, hay: string, at: seq<nat>) {
    && |at| == |needle|
    && (forall i :: 0 <= i < |at| ==> at[i] < |hay| && hay[at[i]] == needle[i])
    && (forall i, j :: 0 <= i < j < |at| ==> at[i] < at[j])
  }

  ghost predicate Subsequence(needle: string, hay: string) {
    exists at :: Placed(needle, hay, at)
  }

  /** Taking the first match each time. */
  predicate Greedy(needle: string, hay: string)
    decreases |hay|
  {
    if needle == "" then true
    else if hay == "" then false
    else if hay[0] == needle[0] then Greedy(needle[1..], hay[1..])
    else Greedy(needle, hay[1..])
  }

  lemma {:induction false} GreedyPlaces(needle: string, hay: string) returns (at: seq<nat>)
    requires Greedy(needle, hay)
    ensures Placed(needle, hay, at)
    decreases |hay|
  {
    if needle == "" {
      at := [];
    } else if hay[0] == needle[0] {
      var rest := GreedyPlaces(needle[1..], hay[1..]);
      at := [0] + seq(|rest|, i requires 0 <= i < |rest| => rest[i] + 1);
      forall i | 0 <= i < |at| ensures at[i] < |hay| && hay[at[i]] == needle[i] {
        assert i > 0 ==> hay[1..][rest[i - 1]] == needle[1..][i - 1];
      }
    } else {
      var rest := GreedyPlaces(needle, hay[1..]);
      at := seq(|rest|, i requires 0 <= i < |rest| => rest[i] + 1);
      forall i | 0 <= i < |at| ensures at[i] < |hay| && hay[at[i]] == needle[i] {
        assert hay[1..][rest[i]] == needle[i];
      }
    }
  }

  lemma {:induction false} PlacedIsGreedy(needle: string, hay: string, at: seq<nat>)
    requires Placed(needle, hay, at)
    ensures Greedy(needle, hay)
    decreases |hay|
  {
    if needle != "" {
      assert at[0] < |hay|;
      if hay[0] == needle[0] {
        forall i | 1 <= i < |at| ensures at[i] >= 1 && hay[1..][at[i] - 1] == needle[1..][i - 1] {
          assert at[0] < at[i];
        }
        PlacedIsGreedy(needle[1..], hay[1..], seq(|at| - 1, i requires 0 <= i < |at| - 1 && at[i + 1] >= 1 => at[i + 1] - 1));
      } else {
        forall i | 0 <= i < |at| ensures at[i] >= 1 && hay[1..][at[i] - 1] == needle[i] {
          assert i > 0 ==> at[0] < at[i];
        }
        PlacedIsGreedy(needle, hay[1..], seq(|at|, i requires 0 <= i < |at| && at[i] >= 1 => at[i] - 1));
      }
    }
  }

  lemma GreedyIsExact(needle: string, hay: string)
    ensures Greedy(needle, hay) <==> Subsequence(needle, hay)
  {
    if Greedy(needle, hay) {
      var at := GreedyPlaces(needle, hay);
    }
    if Subsequence(needle, hay) {
      var at :| Placed(needle, hay, at);
      PlacedIsGreedy(needle, hay, at);
    }
  }

  /** Each character of the needle consumes the haystack up to its first match. */
  method IsSubsequence(needle: string, hay: string) returns (yes: bool)
    ensures yes <==> Subsequence(needle, hay)
  {
    GreedyIsExact(needle, hay);
    var rest := 0;
    for i := 0 to |needle|
      invariant rest <= |hay| && (Greedy(needle, hay) <==> Greedy(needle[i..], hay[rest..]))
    {
      assert needle[i..][0] == needle[i] && needle[i..][1..] == needle[i + 1..];
      while rest < |hay| && hay[rest] != needle[i]
        invariant rest <= |hay| && (Greedy(needle, hay) <==> Greedy(needle[i..], hay[rest..]))
      {
        assert hay[rest..][0] == hay[rest] && hay[rest..][1..] == hay[rest + 1..];
        rest := rest + 1;
      }
      if rest == |hay| {
        return false;
      }
      assert hay[rest..][0] == hay[rest] && hay[rest..][1..] == hay[rest + 1..];
      rest := rest + 1;
    }
    return true;
  }

  // ---------- suggestions ----------

  datatype Flag = Flag(flag: string, risk: Option<string>)

  function TrimDashes(s: string): string {
    if s != "" && s[0] == '-' then TrimDashes(s[1..]) else s
  }

  /** Bytes of a text in UTF-8. */
  function ByteLen(s: string): nat {
    if s == "" then 0
    else
      var n := s[0] as int;
      (if n < 0x80 then 1 else if n < 0x800 then 2 else if n < 0x10000 then 3 else 4) + ByteLen(s[1..])
  }

  function First3(s: string): string {
    if |s| < 3 then s else s[..3]
  }

  function AbsDiff(a: nat, b: nat): nat {
    if a >= b then a - b else b - a
  }

  /** Kind of match, edit distance, difference in length. */
  datatype Score = Score(rank: nat, distance: nat, gap: nat)

  predicate Better(a: Score, b: Score) {
    a.rank < b.rank || (a.rank == b.rank && (a.distance < b.distance || (a.distance == b.distance && a.gap < b.gap)))
  }

  /** How well a flag explains a token: a truncation, a misspelling, a dropped word, or not at all. */
  ghost function ScoreOf(bare: string, known: string): Option<Score> {
    if |bare| >= 6 && ByteLen(known) > ByteLen(bare) && bare <= known then Some(Score(0, 0, ByteLen(known) - ByteLen(bare)))
    else if Lev(bare, known) <= 2 then Some(Score(1, Lev(bare, known), AbsDiff(ByteLen(known), ByteLen(bare))))
    else if |bare| >= 6 && First3(bare) == First3(known) && Subsequence(bare, known) then Some(Score(2, 0, AbsDiff(ByteLen(known), ByteLen(bare))))
    else None
  }

  ghost function FlagScore(token: string, f: Flag): Option<Score> {
    if TrimDashes(token) == "" then None else ScoreOf(TrimDashes(token), TrimDashes(f.flag))
  }

  method Rate(bare: string, known: string) returns (score: Option<Score>)
    ensures score == ScoreOf(bare, known)
  {
    var distance := EditDistance(bare, known);
    if |bare| >= 6 && ByteLen(known) > ByteLen(bare) && bare <= known {
      return Some(Score(0, 0, ByteLen(known) - ByteLen(bare)));
    }
    if distance <= 2 {
      return Some(Score(1, distance, AbsDiff(ByteLen(known), ByteLen(bare))));
    }
    var dropped := IsSubsequence(bare, known);
    if |bare| >= 6 && First3(bare) == First3(known) && dropped {
      return Some(Score(2, 0, AbsDiff(ByteLen(known), ByteLen(bare))));
    }
    return None;
  }

  /** The suggested flag is the earliest of the best-scoring ones. */
  ghost predicate Suggested(token: string, flags: seq<Flag>, found: Option<nat>) {
    match found
    case None => forall i :: 0 <= i < |flags| ==> FlagScore(token, flags[i]).None?
    case Some(k) =>
      && k < |flags| && FlagScore(token, flags[k]).Some?
      && forall i :: 0 <= i < |flags| && FlagScore(token, flags[i]).Some? ==>
                       && !Better(FlagScore(token, flags[i]).value, FlagScore(token, flags[k]).value)
                       && (i < k ==> Better(FlagScore(token, flags[k]).value, FlagScore(token, flags[i]).value))
  }

  lemma NoSuggestion(token: string, flags: seq<Flag>)
    ensures TrimDashes(token) == "" ==> Suggested(token, flags, None)
    ensures Suggested(token, flags[..0], None)
  {
  }

  /** One more flag: it is suggested when it is the first with a score, or better than the best. */
  lemma SuggestedMore(token: string, flags: seq<Flag>, i: nat, found: Option<nat>, best: Score)
    requires i < |flags| && Suggested(token, flags[..i], found)
    requires found.Some? ==> FlagScore(token, flags[found.value]) == Some(best)
    ensures var score := FlagScore(token, flags[i]);
            Suggested(token, flags[..i + 1], if score.Some? && (found.None? || Better(score.value, best)) then Some(i) else found)
  {
    hide ScoreOf, TrimDashes;
    var before, after := flags[..i], flags[..i + 1];
    assert forall j :: 0 <= j < i ==> after[j] == before[j];
  }

  method Suggestion(token: string, flags: seq<Flag>) returns (found: Option<nat>)
    ensures Suggested(token, flags, found)
  {
    hide Suggested, ScoreOf;
    var bare := TrimDashes(token);
    if bare == "" {
      NoSuggestion(token, flags);
      return None;
    }
    NoSuggestion(token, flags);
    found := None;
    var best := Score(0, 0, 0);
    for i := 0 to |flags|
      invariant Suggested(token, flags[..i], found)
      invariant found.Some? ==> found.value < i && FlagScore(token, flags[found.value]) == Some(best)
    {
      var score := Rate(bare, TrimDashes(flags[i].flag));
      assert FlagScore(token, flags[i]) == score;
      SuggestedMore(token, flags, i, found, best);
      if score.Some? && (found.None? || Better(score.value, best)) {
        found, best := Some(i), score.value;
      }
    }
    assert flags[..|flags|] == flags;
  }

  // ---------- what a suggestion is ----------

  /** The token is the beginning of the flag. */
  predicate Truncates(bare: string, known: string) {
    |bare| >= 6 && bare < known
  }

  /** The token is the flag with characters left out, past its first three. */
  ghost predicate Drops(bare: string, known: string) {
    |bare| >= 6 && First3(bare) == First3(known) && Subsequence(bare, known)
  }

  ghost predicate Explains(token: string, f: Flag) {
    var bare, known := TrimDashes(token), TrimDashes(f.flag);
    bare != "" && (Truncates(bare, known) || Lev(bare, known) <= 2 || Drops(bare, known))
  }

  function Gap(bare: string, known: string): nat {
    AbsDiff(ByteLen(known), ByteLen(bare))
  }

  /** Of two flags that explain a token, `a` is suggested over `b`: the shorter completion, else the fewer
  edits, else the closer length; between equals, the one listed first. */
  ghost predicate Prefers(bare: string, a: string, b: string, earlier: bool) {
    if Truncates(bare, b) then Truncates(bare, a) && (ByteLen(a) < ByteLen(b) || (ByteLen(a) == ByteLen(b) && earlier))
    else if Lev(bare, b) <= 2 then
      || Truncates(bare, a) || Lev(bare, a) < Lev(bare, b)
      || (Lev(bare, a) == Lev(bare, b) && (Gap(bare, a) < Gap(bare, b) || (Gap(bare, a) == Gap(bare, b) && earlier)))
    else Truncates(bare, a) || Lev(bare, a) <= 2 || Gap(bare, a) < Gap(bare, b) || (Gap(bare, a) == Gap(bare, b) && earlier)
  }

  lemma {:induction false} PrefixBytes(bare: string, known: string)
    requires bare <= known
    ensures ByteLen(bare) <= ByteLen(known) && (ByteLen(bare) == ByteLen(known) <==> bare == known)
    decreases |bare|
  {
    if bare != "" {
      PrefixBytes(bare[1..], known[1..]);
      assert bare == [bare[0]] + bare[1..] && known == [known[0]] + known[1..];
    }
  }

  lemma ScoreExplains(token: string, f: Flag)
    ensures FlagScore(token, f).Some? <==> Explains(token, f)
    ensures FlagScore(token, f).Some? ==>
              var bare, known, s := TrimDashes(token), TrimDashes(f.flag), FlagScore(token, f).value;
              && (s.rank == 0 <==> Truncates(bare, known)) && (s.rank == 0 ==> s.distance == 0)
              && (s.rank == 1 <==> !Truncates(bare, known) && Lev(bare, known) <= 2) && (s.rank == 1 ==> s.distance == Lev(bare, known))
              && s.rank <= 2 && (s.rank == 2 ==> s.distance == 0) && s.gap == Gap(bare, known)
  {
    hide TrimDashes, Lev, Subsequence, First3;
    var bare, known := TrimDashes(token), TrimDashes(f.flag);
    if bare <= known {
      PrefixBytes(bare, known);
    }
  }

  /** Nothing is suggested exactly when no flag explains the token, and what is suggested is preferred to
  every other flag that does. */
  lemma SuggestedIsPreferred(token: string, flags: seq<Flag>, found: Option<nat>)
    requires Suggested(token, flags, found)
    ensures found.None? <==> forall i :: 0 <= i < |flags| ==> !Explains(token, flags[i])
    ensures found.Some? ==>
              && found.value < |flags| && Explains(token, flags[found.value])
              && forall i :: 0 <= i < |flags| && i != found.value && Explains(token, flags[i]) ==>
                   Prefers(TrimDashes(token), TrimDashes(flags[found.value].flag), TrimDashes(flags[i].flag), found.value < i)
  {
    hide TrimDashes, Lev, FlagScore, Explains, Truncates, Prefers;
    forall i | 0 <= i < |flags| ensures FlagScore(token, flags[i]).Some? <==> Explains(token, flags[i]) {
      ScoreExplains(token, flags[i]);
    }
    if found.Some? {
      forall i | 0 <= i < |flags| && i != found.value && Explains(token, flags[i])
        ensures Prefers(TrimDashes(token), TrimDashes(flags[found.value].flag), TrimDashes(flags[i].flag), found.value < i)
      {
        assert FlagScore(token, flags[i]).Some?;
        BetterIsPreferred(token, flags[found.value], flags[i], found.value < i);
      }
    }
  }

  lemma BetterIsPreferred(token: string, a: Flag, b: Flag, earlier: bool)
    requires FlagScore(token, a).Some? && FlagScore(token, b).Some?
    requires !Better(FlagScore(token, b).value, FlagScore(token, a).value)
    requires earlier || Better(FlagScore(token, a).value, FlagScore(token, b).value)
    ensures Prefers(TrimDashes(token), TrimDashes(a.flag), TrimDashes(b.flag), earlier)
  {
    hide TrimDashes, Lev, FlagScore;
    ScoreExplains(token, a);
    ScoreExplains(token, b);
    GapOrder(TrimDashes(token), TrimDashes(a.flag), TrimDashes(b.flag));
  }

  lemma GapOrder(bare: string, a: string, b: string)
    ensures Truncates(bare, a) && Truncates(bare, b) ==> (Gap(bare, a) <= Gap(bare, b) <==> ByteLen(a) <= ByteLen(b))
  {
    if Truncates(bare, a) && Truncates(bare, b) {
      PrefixBytes(bare, a);
      PrefixBytes(bare, b);
    }
  }

  // ---------- unknown arguments ----------

  datatype UnknownArg = Reject | Ignore

  /** An argument is ignored exactly when ignoring is allowed and the flag it most likely meant, if
  any, carries no risk. */
  method ClassifyUnknownArg(token: string, allowUnknown: bool, flags: seq<Flag>) returns (verdict: UnknownArg, found: Option<nat>)
    ensures Suggested(token, flags, found)
    ensures verdict.Ignore? <==> allowUnknown && (found.Some? ==> flags[found.value].risk.None?)
  {
    found := Suggestion(token, flags);
    if found.Some? && flags[found.value].risk.Some? {
      return Reject, found;
    }
    if allowUnknown {
      return Ignore, found;
    }
    return Reject, found;
  }

  /** The suggestion is unique, so a token whose best explanations are all risky flags is refused. */
  lemma OneSuggestion(token: string, flags: seq<Flag>, a: Option<nat>, b: Option<nat>)
    requires Suggested(token, flags, a) && Suggested(token, flags, b)
    ensures a == b
  {
    hide FlagScore;
  }

  /** Two edits away from a risky flag, and no other flag as close: never ignored. */
  lemma NearMissOfRisk(token: string, flags: seq<Flag>, k: nat, found: Option<nat>)
    requires k < |flags| && Suggested(token, flags, found) && FlagScore(token, flags[k]).Some? && flags[k].risk.Some?
    requires forall i :: 0 <= i < |flags| && FlagScore(token, flags[i]).Some? && flags[i].risk.None? ==>
                           Better(FlagScore(token, flags[k]).value, FlagScore(token, flags[i]).value)
    ensures found.Some? && flags[found.value].risk.Some?
  {
    hide FlagScore;
  }
}
