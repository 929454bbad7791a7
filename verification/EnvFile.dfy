/** The `.env` writer of `env_file.rs`: a line rendered is a line that parses back, an upsert touches only the
lines of the keys it manages, and what becomes of the bytes of all the others. */
module EnvFile {
  import opened Wrappers
  import opened Text

  // ---------- one line ----------

  predicate IsAlpha(c: char) {
    'a' <= c <= 'z' || 'A' <= c <= 'Z'
  }

  predicate IsWordChar(c: char) {
    IsAlpha(c) || '0' <= c <= '9' || c == '_'
  }

  predicate IsIdentifier(key: string) {
    key != "" && (IsAlpha(key[0]) || key[0] == '_') && forall i :: 0 <= i < |key| ==> IsWordChar(key[i])
  }

  predicate BothQuotes(value: string) {
    '"' in value && '\'' in value
  }

  /** Double quotes, or single ones around a value that has double quotes; never both. */
  function RenderLine(key: string, value: string): Result<string, ()> {
    if BothQuotes(value) then Err(())
    else if '"' in value then Ok(key + "='" + value + "'")
    else Ok(key + "=\"" + value + "\"")
  }

  /** The line without surrounding space and `export`. */
  function Body(line: string): string {
    var t := Trim(line);
    TrimStart(if "export " <= t then t[7..] else t)
  }

  function SplitAtEquals(s: string): Option<(string, string)> {
    if s == "" then None
    else if s[0] == '=' then Some(("", s[1..]))
    else
      match SplitAtEquals(s[1..])
      case None => None
      case Some((k, v)) => Some(([s[0]] + k, v))
  }

  /** The key of a line; none for comments, blanks and malformed lines. */
  function LineKey(line: string): Option<string> {
    var t := Trim(line);
    if t == "" || t[0] == '#' then None
    else
      match SplitAtEquals(Body(line))
      case None => None
      case Some((k, _)) => if IsIdentifier(Trim(k)) then Some(Trim(k)) else None
  }

  /** One layer of matching quotes off. */
  function Unquoted(value: string): string {
    if |value| >= 2 && ((value[0] == '"' && value[|value| - 1] == '"') || (value[0] == '\'' && value[|value| - 1] == '\''))
    then value[1..|value| - 1] else value
  }

  function ParseLine(line: string): Option<(string, string)> {
    match LineKey(line)
    case None => None
    case Some(key) =>
      match SplitAtEquals(Body(line))
      case None => Some((key, ""))
      case Some((_, v)) => Some((key, Unquoted(Trim(v))))
  }

  // ---------- rendered lines parse back ----------

  lemma TrimNothing(s: string)
    requires s != "" && !IsSpace(s[0]) && !IsSpace(s[|s| - 1])
    ensures Trim(s) == s && TrimStart(s) == s
  {
  }

  lemma {:induction false} SplitRendered(key: string, rest: string)
    requires forall i :: 0 <= i < |key| ==> key[i] != '='
    ensures SplitAtEquals(key + "=" + rest) == Some((key, rest))
    decreases |key|
  {
    var s := key + "=" + rest;
    if key == "" {
      assert s[1..] == rest;
    } else {
      assert s[1..] == key[1..] + "=" + rest;
      SplitRendered(key[1..], rest);
      assert [key[0]] + key[1..] == key;
    }
  }

  lemma QuotedParses(key: string, value: string, q: char)
    requires IsIdentifier(key) && (q == '"' || q == '\'')
    ensures ParseLine(key + "=" + ([q] + value + [q])) == Some((key, value))
  {
    hide TrimEnd;
    var quoted := [q] + value + [q];
    var line := key + "=" + quoted;
    assert line[0] == key[0] && line[|line| - 1] == q;
    TrimNothing(line);
    TrimNothing(key);
    TrimNothing(quoted);
    assert !("export " <= line) by {
      if |key| >= 7 {
        assert line[6] == key[6] && IsWordChar(key[6]);
      } else {
        assert line[|key|] == '=';
      }
    }
    assert Body(line) == line;
    SplitRendered(key, quoted);
    assert Unquoted(quoted) == value;
  }

  lemma KeysAreIdentifiers(line: string)
    ensures LineKey(line).Some? ==> IsIdentifier(LineKey(line).value)
    ensures ParseLine(line).Some? ==> IsIdentifier(ParseLine(line).value.0)
  {
    hide Trim, IsIdentifier;
  }

  /** Whatever can be rendered parses back to the key and the value, newlines included, exactly when
  the key is an identifier; under any other key the written line is never found again. */
  lemma RenderedReadsBack(key: string, value: string)
    ensures RenderLine(key, value).Ok? <==> !BothQuotes(value)
    ensures RenderLine(key, value).Ok? ==>
              var line := RenderLine(key, value).value;
              && (ParseLine(line) == Some((key, value)) <==> IsIdentifier(key))
              && (LineKey(line) == Some(key) <==> IsIdentifier(key))
  {
    hide ParseLine, LineKey;
    if !BothQuotes(value) {
      var q := if '"' in value then '\'' else '"';
      if IsIdentifier(key) {
        QuotedParses(key, value, q);
        assert key + "=" + ([q] + value + [q]) == RenderLine(key, value).value;
        KeyOfParsed(RenderLine(key, value).value);
      }
      KeysAreIdentifiers(RenderLine(key, value).value);
    }
  }

  lemma KeyOfParsed(line: string)
    ensures ParseLine(line).Some? ==> LineKey(line) == Some(ParseLine(line).value.0)
  {
  }

  // ---------- a list of lines ----------

  /** The variables of one call: distinct names, in order. */
  type Vars = seq<(string, string)>

  predicate Manages(vars: Vars, line: string) {
    LineKey(line).Some? && exists i :: 0 <= i < |vars| && vars[i].0 == LineKey(line).value
  }

  function Unmanaged(vars: Vars, lines: seq<string>): seq<string> {
    if lines == [] then []
    else Unmanaged(vars, lines[..|lines| - 1]) + if Manages(vars, lines[|lines| - 1]) then [] else [lines[|lines| - 1]]
  }

  predicate DistinctKeys(vars: Vars) {
    forall i, j :: 0 <= i < j < |vars| ==> vars[i].0 != vars[j].0
  }

  ghost predicate Named(vars: Vars) {
    (forall i :: 0 <= i < |vars| ==> IsIdentifier(vars[i].0)) && DistinctKeys(vars)
  }

  function Rendered(v: (string, string)): string {
    match RenderLine(v.0, v.1)
    case Ok(line) => line
    case Err(_) => ""
  }

  predicate HasKey(lines: seq<string>, key: string) {
    exists i :: 0 <= i < |lines| && LineKey(lines[i]) == Some(key)
  }

  /** Every line of `key` replaced where it stands. */
  function Replaced(lines: seq<string>, key: string, line: string): (r: seq<string>)
    ensures |r| == |lines|
    ensures forall i :: 0 <= i < |lines| ==> r[i] == if LineKey(lines[i]) == Some(key) then line else lines[i]
  {
    seq(|lines|, i requires 0 <= i < |lines| => if LineKey(lines[i]) == Some(key) then line else lines[i])
  }

  function Put(lines: seq<string>, v: (string, string), existed: bool): seq<string> {
    if existed then Replaced(lines, v.0, Rendered(v)) else lines + [Rendered(v)]
  }

  /** Every line of a managed key reads back its variable, and every managed key has a line. */
  ghost predicate Holds(vars: Vars, lines: seq<string>) {
    && (forall i, j :: 0 <= i < |lines| && 0 <= j < |vars| && LineKey(lines[i]) == Some(vars[j].0) ==> ParseLine(lines[i]) == Some(vars[j]))
    && (forall j :: 0 <= j < |vars| ==> HasKey(lines, vars[j].0))
  }

  /** The other lines, in their order. */
  ghost predicate Keeps(vars: Vars, before: seq<string>, after: seq<string>) {
    Unmanaged(vars, after) == Unmanaged(vars, before)
  }

  lemma RenderedIsManaged(vars: Vars, k: nat)
    requires Named(vars) && k < |vars| && !BothQuotes(vars[k].1)
    ensures LineKey(Rendered(vars[k])) == Some(vars[k].0) && ParseLine(Rendered(vars[k])) == Some(vars[k]) && Manages(vars, Rendered(vars[k]))
  {
    hide LineKey, ParseLine;
    RenderedReadsBack(vars[k].0, vars[k].1);
  }

  lemma {:induction false} ReplacedKeeps(vars: Vars, lines: seq<string>, k: nat)
    requires Named(vars) && k < |vars| && !BothQuotes(vars[k].1)
    ensures Unmanaged(vars, Replaced(lines, vars[k].0, Rendered(vars[k]))) == Unmanaged(vars, lines)
    decreases |lines|
  {
    hide LineKey, ParseLine, RenderLine;
    if lines != [] {
      RenderedIsManaged(vars, k);
      var init, last := lines[..|lines| - 1], lines[|lines| - 1];
      ReplacedKeeps(vars, init, k);
      var all := Replaced(lines, vars[k].0, Rendered(vars[k]));
      assert all[..|lines| - 1] == Replaced(init, vars[k].0, Rendered(vars[k]));
      assert LineKey(last) == Some(vars[k].0) ==> Manages(vars, last);
    }
  }

  /** One variable put: the earlier ones still hold, this one now does, the rest is kept. */
  lemma PutHolds(vars: Vars, k: nat, lines0: seq<string>, lines: seq<string>)
    requires Named(vars) && k < |vars| && !BothQuotes(vars[k].1) && Holds(vars[..k], lines) && Keeps(vars, lines0, lines)
    requires HasKey(lines0, vars[k].0) <==> HasKey(lines, vars[k].0)
    ensures var after := Put(lines, vars[k], HasKey(lines0, vars[k].0));
            Holds(vars[..k + 1], after) && Keeps(vars, lines0, after)
  {
    hide LineKey, ParseLine, RenderLine, Unmanaged;
    var existed := HasKey(lines0, vars[k].0);
    var after := Put(lines, vars[k], existed);
    RenderedIsManaged(vars, k);
    if existed {
      ReplacedKeeps(vars, lines, k);
    } else {
      AppendKeeps(vars, lines, Rendered(vars[k]));
    }
    forall j | 0 <= j <= k ensures HasKey(after, vars[j].0) {
      if j < k || existed {
        assert j < k ==> vars[..k][j] == vars[j];
        var i :| 0 <= i < |lines| && LineKey(lines[i]) == Some(vars[j].0);
        assert LineKey(after[i]) == Some(vars[j].0);
      } else {
        assert after[|lines|] == Rendered(vars[k]);
      }
    }
    forall i, j | 0 <= i < |after| && 0 <= j <= k && LineKey(after[i]) == Some(vars[j].0) ensures ParseLine(after[i]) == Some(vars[j]) {
      if after[i] != Rendered(vars[k]) {
        assert i < |lines| && after[i] == lines[i];
        assert j < k ==> vars[..k][j] == vars[j];
      }
    }
  }

  lemma AppendKeeps(vars: Vars, lines: seq<string>, line: string)
    requires Manages(vars, line)
    ensures Unmanaged(vars, lines + [line]) == Unmanaged(vars, lines)
  {
    hide Manages;
    assert (lines + [line])[..|lines|] == lines;
  }

  /** Putting one key neither adds nor removes lines of another. */
  lemma OtherKeys(vars: Vars, k: nat, lines: seq<string>, existed: bool, j: nat)
    requires Named(vars) && k < j < |vars| && !BothQuotes(vars[k].1)
    ensures HasKey(Put(lines, vars[k], existed), vars[j].0) <==> HasKey(lines, vars[j].0)
  {
    hide LineKey, ParseLine, RenderLine;
    RenderedIsManaged(vars, k);
    var after := Put(lines, vars[k], existed);
    if HasKey(lines, vars[j].0) {
      var i :| 0 <= i < |lines| && LineKey(lines[i]) == Some(vars[j].0);
      assert LineKey(after[i]) == Some(vars[j].0);
    }
    if HasKey(after, vars[j].0) {
      var i :| 0 <= i < |after| && LineKey(after[i]) == Some(vars[j].0);
      assert i < |lines| && lines[i] == after[i];
    }
  }

  /** The lines after the first `k` variables: whether a key had a line is asked of the file as read. */
  function PutAll(vars: Vars, k: nat, lines: seq<string>): seq<string>
    requires k <= |vars|
  {
    if k == 0 then lines else Put(PutAll(vars, k - 1, lines), vars[k - 1], HasKey(lines, vars[k - 1].0))
  }

  ghost predicate Writable(vars: Vars, k: nat)
    requires k <= |vars|
  {
    Named(vars) && forall i :: 0 <= i < k ==> !BothQuotes(vars[i].1)
  }

  lemma {:induction false} PutAllHolds(vars: Vars, k: nat, lines: seq<string>)
    requires k <= |vars| && Writable(vars, k)
    ensures var after := PutAll(vars, k, lines);
            Holds(vars[..k], after) && Keeps(vars, lines, after) && Untouched(vars, k, lines, after)
  {
    hide LineKey, ParseLine, RenderLine, Unmanaged, Rendered, IsIdentifier, BothQuotes, Holds, HasKey, Put;
    if k == 0 {
      NothingPut(vars, lines);
    } else {
      PutAllHolds(vars, k - 1, lines);
      PutHolds(vars, k - 1, lines, PutAll(vars, k - 1, lines));
      PutUntouched(vars, k - 1, lines, PutAll(vars, k - 1, lines));
    }
  }

  /** The variables without a line, rendered in order. */
  function NewLines(vars: Vars, k: nat, lines: seq<string>): seq<string>
    requires k <= |vars|
  {
    if k == 0 then []
    else NewLines(vars, k - 1, lines) + if HasKey(lines, vars[k - 1].0) then [] else [Rendered(vars[k - 1])]
  }

  /** Where a managed line stood its variable stands now; any other line is as it was. */
  ghost predicate InPlace(vars: Vars, k: nat, before: string, after: string)
    requires k <= |vars|
  {
    && (forall j :: 0 <= j < k && LineKey(before) == Some(vars[j].0) ==> after == Rendered(vars[j]))
    && ((forall j :: 0 <= j < k ==> LineKey(before) != Some(vars[j].0)) ==> after == before)
  }

  lemma InPlaceNext(vars: Vars, k: nat, before: string, after: string)
    requires k < |vars| && Writable(vars, k + 1) && InPlace(vars, k, before, after)
    ensures LineKey(after) == LineKey(before)
    ensures InPlace(vars, k + 1, before, if LineKey(after) == Some(vars[k].0) then Rendered(vars[k]) else after)
  {
    hide LineKey, ParseLine, RenderLine, Rendered, BothQuotes, IsIdentifier;
    if j :| 0 <= j < k && LineKey(before) == Some(vars[j].0) {
      RenderedIsManaged(vars, j);
    }
  }

  lemma {:induction false} NewKeys(vars: Vars, k: nat, lines: seq<string>, i: nat)
    requires k <= |vars| && Writable(vars, k) && i < |NewLines(vars, k, lines)|
    ensures exists j :: 0 <= j < k && LineKey(NewLines(vars, k, lines)[i]) == Some(vars[j].0)
  {
    hide LineKey, ParseLine, RenderLine, Rendered, BothQuotes, IsIdentifier, HasKey;
    if i < |NewLines(vars, k - 1, lines)| {
      NewKeys(vars, k - 1, lines, i);
    } else {
      RenderedIsManaged(vars, k - 1);
    }
  }

  /** An upsert leaves every line in its place, rewriting the managed ones, and appends the new
  variables in their order. */
  lemma {:induction false} PutAllPlaces(vars: Vars, k: nat, lines: seq<string>)
    requires k <= |vars| && Writable(vars, k)
    ensures var after := PutAll(vars, k, lines);
            && |after| >= |lines| && after[|lines|..] == NewLines(vars, k, lines)
            && forall i :: 0 <= i < |lines| ==> InPlace(vars, k, lines[i], after[i])
  {
    hide LineKey, ParseLine, RenderLine, Rendered, BothQuotes, IsIdentifier, HasKey, InPlace;
    if k == 0 {
      NothingMoved(vars, lines);
    } else {
      PutAllPlaces(vars, k - 1, lines);
      var before, after := PutAll(vars, k - 1, lines), PutAll(vars, k, lines);
      forall i | 0 <= i < |lines| ensures InPlace(vars, k, lines[i], after[i]) {
        InPlaceNext(vars, k - 1, lines[i], before[i]);
        if !HasKey(lines, vars[k - 1].0) {
          NotThere(lines, vars[k - 1].0, i);
        }
      }
      if HasKey(lines, vars[k - 1].0) {
        NewUntouched(vars, k, lines);
      }
    }
  }

  lemma NothingMoved(vars: Vars, lines: seq<string>)
    ensures forall i :: 0 <= i < |lines| ==> InPlace(vars, 0, lines[i], lines[i])
  {
  }

  lemma NotThere(lines: seq<string>, key: string, i: nat)
    requires !HasKey(lines, key) && i < |lines|
    ensures LineKey(lines[i]) != Some(key)
  {
  }

  lemma NewUntouched(vars: Vars, k: nat, lines: seq<string>)
    requires 0 < k <= |vars| && Writable(vars, k) && HasKey(lines, vars[k - 1].0)
    requires var before := PutAll(vars, k - 1, lines); |before| >= |lines| && before[|lines|..] == NewLines(vars, k - 1, lines)
    ensures PutAll(vars, k, lines)[|lines|..] == NewLines(vars, k, lines)
  {
    hide LineKey, ParseLine, RenderLine, Rendered, BothQuotes, IsIdentifier, HasKey;
    var before, fresh' := PutAll(vars, k - 1, lines), NewLines(vars, k - 1, lines);
    forall i | 0 <= i < |fresh'| ensures LineKey(fresh'[i]) != Some(vars[k - 1].0) {
      NewKeys(vars, k - 1, lines, i);
    }
    forall i | |lines| <= i < |before| ensures PutAll(vars, k, lines)[i] == before[i] {
      assert before[i] == before[|lines|..][i - |lines|] == fresh'[i - |lines|];
    }
  }

  // ---------- the file ----------

  function StripReturn(s: string): string {
    if s != "" && s[|s| - 1] == '\r' then s[..|s| - 1] else s
  }

  /** The text up to the first line feed, and what follows it. */
  function FirstLine(text: string): Option<(string, string)> {
    if text == "" then None
    else if text[0] == '\n' then Some(("", text[1..]))
    else
      match FirstLine(text[1..])
      case None => None
      case Some((line, rest)) => Some(([text[0]] + line, rest))
  }

  lemma {:induction false} FirstLineShorter(text: string)
    ensures FirstLine(text).Some? ==> |FirstLine(text).value.1| < |text|
    decreases |text|
  {
    if text != "" && text[0] != '\n' {
      FirstLineShorter(text[1..]);
    }
  }

  /** Lines end at a line feed, with one carriage return before it dropped; a last line needs no
  line feed. */
  function Lines(text: string): seq<string>
    decreases |text|
  {
    if text == "" then []
    else
      match FirstLine(text)
      case None => [text]
      case Some((line, rest)) =>
        FirstLineShorter(text);
        [StripReturn(line)] + Lines(rest)
  }

  /** What is written: every line ended by a line feed. */
  function FileText(lines: seq<string>): string {
    if lines == [] then "\n"
    else if |lines| == 1 then lines[0] + "\n"
    else lines[0] + "\n" + FileText(lines[1..])
  }

  predicate Plain(line: string) {
    '\n' !in line && (line == "" || line[|line| - 1] != '\r')
  }

  lemma {:induction false} FirstLineOf(line: string, rest: string)
    requires '\n' !in line
    ensures FirstLine(line + "\n" + rest) == Some((line, rest))
    decreases |line|
  {
    var text := line + "\n" + rest;
    if line == "" {
      assert text[1..] == rest;
    } else {
      assert text[1..] == line[1..] + "\n" + rest;
      FirstLineOf(line[1..], rest);
      assert [line[0]] + line[1..] == line;
    }
  }

  function Feeds(text: string): nat {
    if text == "" then 0 else (if text[0] == '\n' then 1 else 0) + Feeds(text[1..])
  }

  lemma {:induction false} FeedsConcat(a: string, b: string)
    ensures Feeds(a + b) == Feeds(a) + Feeds(b) && (Feeds(a) == 0 <==> '\n' !in a)
    decreases |a|
  {
    if a == "" {
      assert a + b == b;
    } else {
      assert (a + b)[1..] == a[1..] + b;
      FeedsConcat(a[1..], b);
    }
  }

  lemma {:induction false} FirstLineFeeds(text: string)
    ensures FirstLine(text).None? ==> Feeds(text) == 0
    ensures FirstLine(text).Some? ==> Feeds(text) == 1 + Feeds(FirstLine(text).value.1)
    ensures FirstLine(text).Some? && text[|text| - 1] == '\n' ==>
              FirstLine(text).value.1 == "" || FirstLine(text).value.1[|FirstLine(text).value.1| - 1] == '\n'
    decreases |text|
  {
    if text != "" && text[0] != '\n' {
      FirstLineFeeds(text[1..]);
    }
  }

  /** A text that ends in a line feed has a line for every line feed. */
  lemma {:induction false} LineCount(text: string)
    requires text == "" || text[|text| - 1] == '\n'
    ensures |Lines(text)| == Feeds(text)
    decreases |text|
  {
    if text != "" {
      FirstLineFeeds(text);
      FirstLineShorter(text);
      EndsInFeed(text);
      LineCount(FirstLine(text).value.1);
    }
  }

  lemma {:induction false} EndsInFeed(text: string)
    requires text != "" && text[|text| - 1] == '\n'
    ensures FirstLine(text).Some?
    decreases |text|
  {
    if text[0] != '\n' {
      EndsInFeed(text[1..]);
    }
  }

  lemma {:induction false} FileFeeds(lines: seq<string>)
    requires lines != []
    ensures var text := FileText(lines); text != "" && text[|text| - 1] == '\n' && Feeds(text) >= |lines|
    ensures Feeds(FileText(lines)) == |lines| <==> forall i :: 0 <= i < |lines| ==> '\n' !in lines[i]
    decreases |lines|
  {
    FeedsConcat(lines[0], "\n");
    assert Feeds("\n") == 1;
    if |lines| > 1 {
      FileFeeds(lines[1..]);
      FeedsConcat(lines[0] + "\n", FileText(lines[1..]));
      assert forall i :: 1 <= i < |lines| ==> lines[i] == lines[1..][i - 1];
    }
  }

  lemma {:induction false} LinesWithoutFeeds(lines: seq<string>)
    requires lines != [] && forall i :: 0 <= i < |lines| ==> '\n' !in lines[i]
    ensures |Lines(FileText(lines))| == |lines| && forall i :: 0 <= i < |lines| ==> Lines(FileText(lines))[i] == StripReturn(lines[i])
    decreases |lines|
  {
    if |lines| == 1 {
      FirstLineOf(lines[0], "");
      assert lines[0] + "\n" == lines[0] + "\n" + "";
    } else {
      FirstLineOf(lines[0], FileText(lines[1..]));
      LinesWithoutFeeds(lines[1..]);
    }
  }

  /** A written list of lines reads back as itself exactly when no line carries a line feed or ends
  in a carriage return. */
  lemma WrittenLinesReadBack(lines: seq<string>)
    requires lines != []
    ensures Lines(FileText(lines)) == lines <==> forall i :: 0 <= i < |lines| ==> Plain(lines[i])
  {
    hide FileText, Lines, Feeds;
    FileFeeds(lines);
    LineCount(FileText(lines));
    if forall i :: 0 <= i < |lines| ==> '\n' !in lines[i] {
      LinesWithoutFeeds(lines);
      if Lines(FileText(lines)) == lines {
        forall i | 0 <= i < |lines| ensures Plain(lines[i]) {
          assert StripReturn(lines[i]) == lines[i];
        }
      }
    }
  }

  // ---------- byte for byte ----------

  /** The lines of a text with their endings: joined, they are the text. */
  function RawLines(text: string): seq<string>
    decreases |text|
  {
    if text == "" then []
    else
      match FirstLine(text)
      case None => [text]
      case Some((line, rest)) =>
        FirstLineShorter(text);
        [line + "\n"] + RawLines(rest)
  }

  function Joined(pieces: seq<string>): string {
    if pieces == [] then "" else pieces[0] + Joined(pieces[1..])
  }

  /** A line without its ending, as it is read. */
  function Unended(raw: string): string {
    if raw != "" && raw[|raw| - 1] == '\n' then StripReturn(raw[..|raw| - 1]) else raw
  }

  /** Ended by a line feed alone, so that writing the line again gives the same bytes. */
  predicate FeedEnded(raw: string) {
    raw != "" && raw[|raw| - 1] == '\n' && (|raw| >= 2 ==> raw[|raw| - 2] != '\r')
  }

  lemma {:induction false} FirstLineParts(text: string)
    ensures FirstLine(text).Some? ==> text == FirstLine(text).value.0 + "\n" + FirstLine(text).value.1 && '\n' !in FirstLine(text).value.0
    ensures FirstLine(text).None? ==> '\n' !in text
    decreases |text|
  {
    if text == "" {
    } else if text[0] == '\n' {
      assert text == "" + "\n" + text[1..];
    } else {
      FirstLineParts(text[1..]);
      assert text == [text[0]] + text[1..];
    }
  }

  lemma UnendedLine(line: string)
    ensures Unended(line + "\n") == StripReturn(line)
    ensures StripReturn(line) + "\n" == line + "\n" <==> FeedEnded(line + "\n")
  {
    assert (line + "\n")[..|line|] == line;
  }

  lemma {:induction false} RawLinesOf(text: string)
    ensures Joined(RawLines(text)) == text && |RawLines(text)| == |Lines(text)|
    ensures forall i :: 0 <= i < |Lines(text)| ==> Lines(text)[i] == Unended(RawLines(text)[i]) && '\n' !in Lines(text)[i]
    decreases |text|
  {
    hide Unended, FeedEnded;
    if text != "" {
      FirstLineParts(text);
      FirstLineShorter(text);
      match FirstLine(text) {
        case None => LoneLine(text);
        case Some((line, rest)) =>
          RawLinesOf(rest);
          UnendedLine(line);
          assert RawLines(text)[1..] == RawLines(rest) && Lines(text)[1..] == Lines(rest);
      }
    }
  }

  lemma FirstRawLine(line: string, rest: string)
    requires '\n' !in line
    ensures RawLines(line + "\n" + rest) == [line + "\n"] + RawLines(rest)
  {
    FirstLineOf(line, rest);
  }

  lemma LoneLine(text: string)
    requires '\n' !in text
    ensures Joined([text]) == text && Unended(text) == text
  {
    assert [text][1..] == [];
    assert text + "" == text;
  }

  /** The text written for some lines has those lines, each ended by a line feed. */
  lemma {:induction false} RawLinesOfWritten(lines: seq<string>)
    requires lines != [] && forall i :: 0 <= i < |lines| ==> '\n' !in lines[i]
    ensures |RawLines(FileText(lines))| == |lines|
    ensures forall i :: 0 <= i < |lines| ==> RawLines(FileText(lines))[i] == lines[i] + "\n"
    decreases |lines|
  {
    if |lines| == 1 {
      FirstLineOf(lines[0], "");
      assert lines[0] + "\n" == lines[0] + "\n" + "";
    } else {
      FirstLineOf(lines[0], FileText(lines[1..]));
      RawLinesOfWritten(lines[1..]);
    }
  }

  /** A text that is written back line by line is itself exactly when each of its lines ends in a
  line feed alone. */
  lemma RewrittenIffFeedEnded(text: string)
    ensures FileText(Lines(text)) == text <==> text != "" && forall i :: 0 <= i < |RawLines(text)| ==> FeedEnded(RawLines(text)[i])
  {
    hide FeedEnded, Unended, FileText, Lines, RawLines;
    var lines, raws, back := Lines(text), RawLines(text), FileText(Lines(text));
    RawLinesOf(text);
    EmptyText(text);
    if text != "" {
      RawLinesOfWritten(lines);
      RawLinesOf(back);
      forall i | 0 <= i < |raws| ensures RawLines(back)[i] == raws[i] <==> FeedEnded(raws[i]) {
        RewrittenLine(raws[i], lines[i]);
      }
      if forall i :: 0 <= i < |raws| ==> FeedEnded(raws[i]) {
        assert RawLines(back) == raws;
      }
    }
  }

  lemma EmptyText(text: string)
    ensures FileText([]) != "" && Lines("") == [] && RawLines("") == []
    ensures text != "" ==> Lines(text) != []
  {
    if text != "" {
      FirstLineShorter(text);
    }
  }

  lemma RewrittenLine(raw: string, line: string)
    requires line == Unended(raw) && '\n' !in line
    ensures line + "\n" == raw <==> FeedEnded(raw)
  {
    assert (line + "\n")[|line|] == '\n';
    if raw != "" && raw[|raw| - 1] == '\n' {
      var body := raw[..|raw| - 1];
      assert raw == body + "\n";
      UnendedLine(body);
    }
  }

  /** No line feed after a carriage return. */
  predicate NoReturnFeed(text: string) {
    forall i :: 0 <= i < |text| - 1 ==> !(text[i] == '\r' && text[i + 1] == '\n')
  }

  lemma ReturnFeedAcross(line: string, rest: string)
    requires '\n' !in line
    ensures NoReturnFeed(line + "\n" + rest) <==> FeedEnded(line + "\n") && NoReturnFeed(rest)
  {
    var text, n := line + "\n" + rest, |line|;
    if NoReturnFeed(text) {
      assert n > 0 ==> text[n - 1] == line[n - 1] && text[n] == '\n';
      forall i | 0 <= i < |rest| - 1 ensures !(rest[i] == '\r' && rest[i + 1] == '\n') {
        assert text[n + 1 + i] == rest[i] && text[n + 1 + i + 1] == rest[i + 1];
      }
    }
    if FeedEnded(line + "\n") && NoReturnFeed(rest) {
      forall i | 0 <= i < |text| - 1 ensures !(text[i] == '\r' && text[i + 1] == '\n') {
        if i + 1 < n {
          assert text[i + 1] == line[i + 1];
        } else if i > n {
          assert text[i] == rest[i - n - 1] && text[i + 1] == rest[i - n];
        }
      }
    }
  }

  lemma {:induction false} FeedEndedText(text: string)
    ensures (forall i :: 0 <= i < |RawLines(text)| ==> FeedEnded(RawLines(text)[i])) <==>
            text == "" || (text[|text| - 1] == '\n' && NoReturnFeed(text))
    decreases |text|
  {
    hide FeedEnded, NoReturnFeed;
    if text != "" {
      FirstLineParts(text);
      FirstLineShorter(text);
      match FirstLine(text) {
        case None =>
          NotEnded(text);
          assert RawLines(text)[0] == text;
        case Some((line, rest)) =>
          FeedEndedText(rest);
          ReturnFeedAcross(line, rest);
          NothingReturns();
          var raws := RawLines(text);
          assert raws == [line + "\n"] + RawLines(rest);
          assert raws[0] == line + "\n" && forall i :: 0 <= i < |RawLines(rest)| ==> raws[i + 1] == RawLines(rest)[i];
          assert text[|text| - 1] == if rest == "" then '\n' else rest[|rest| - 1];
      }
    }
  }

  lemma NotEnded(text: string)
    requires '\n' !in text && text != ""
    ensures !FeedEnded(text)
  {
  }

  lemma NothingReturns()
    ensures NoReturnFeed("")
  {
  }

  /** Reading a text and writing it back gives the same bytes exactly when it ends in a line feed
  and holds no line feed after a carriage return. */
  lemma ReadAndWrittenBack(text: string)
    ensures FileText(Lines(text)) == text <==> text != "" && text[|text| - 1] == '\n' && NoReturnFeed(text)
  {
    RewrittenIffFeedEnded(text);
    FeedEndedText(text);
  }

  // ---------- the foreign lines, byte for byte ----------

  lemma {:induction false} StartTrimmed(x: string, w: char)
    requires IsSpace(w)
    ensures TrimStart(x + [w]) == if TrimStart(x) == "" then "" else TrimStart(x) + [w]
    decreases |x|
  {
    if x == "" {
      assert (x + [w])[1..] == "";
    } else if IsSpace(x[0]) {
      assert (x + [w])[1..] == x[1..] + [w];
      StartTrimmed(x[1..], w);
    }
  }

  /** Space at the end of a line changes neither its key nor its value. */
  lemma EndIsTrimmed(x: string, w: char)
    requires IsSpace(w)
    ensures LineKey(x + [w]) == LineKey(x) && ParseLine(x + [w]) == ParseLine(x)
  {
    StartTrimmed(x, w);
    var y := TrimStart(x);
    if y != "" {
      assert (y + [w])[..|y|] == y;
    }
    assert Trim(x + [w]) == Trim(x);
    hide Trim;
  }

  lemma SameKeys(line: string)
    ensures LineKey(line + "\n") == LineKey(line)
    ensures LineKey(StripReturn(line)) == LineKey(line) && ParseLine(StripReturn(line)) == ParseLine(line)
    ensures LineKey(Unended(line)) == LineKey(line)
  {
    hide LineKey, ParseLine;
    EndIsTrimmed(line, '\n');
    ReturnIsTrimmed(line);
    if line != "" && line[|line| - 1] == '\n' {
      var body := line[..|line| - 1];
      assert line == body + ['\n'];
      EndIsTrimmed(body, '\n');
      ReturnIsTrimmed(body);
    }
  }

  lemma ReturnIsTrimmed(line: string)
    ensures LineKey(StripReturn(line)) == LineKey(line) && ParseLine(StripReturn(line)) == ParseLine(line)
  {
    hide LineKey, ParseLine;
    if StripReturn(line) != line {
      assert line == StripReturn(line) + ['\r'];
      EndIsTrimmed(StripReturn(line), '\r');
    }
  }

  lemma {:induction false} OthersUnended(keys: seq<string>, raws: seq<string>, lines: seq<string>)
    requires |raws| == |lines| && forall i :: 0 <= i < |raws| ==> lines[i] == Unended(raws[i])
    ensures |Others(keys, raws)| == |Others(keys, lines)|
    ensures forall i :: 0 <= i < |Others(keys, raws)| ==> Others(keys, lines)[i] == Unended(Others(keys, raws)[i])
    decreases |raws|
  {
    hide LineKey, Unended;
    if raws != [] {
      var n := |raws| - 1;
      OthersUnended(keys, raws[..n], lines[..n]);
      SameKeys(raws[n]);
    }
  }

  lemma {:induction false} OthersEnded(keys: seq<string>, raws: seq<string>, lines: seq<string>)
    requires |raws| == |lines| && forall i :: 0 <= i < |raws| ==> raws[i] == lines[i] + "\n"
    ensures |Others(keys, raws)| == |Others(keys, lines)|
    ensures forall i :: 0 <= i < |Others(keys, raws)| ==> Others(keys, raws)[i] == Others(keys, lines)[i] + "\n"
    decreases |raws|
  {
    hide LineKey;
    if raws != [] {
      var n := |raws| - 1;
      OthersEnded(keys, raws[..n], lines[..n]);
      SameKeys(lines[n]);
    }
  }

  /** The lines of other keys, endings included, are the same in both texts. */
  predicate ForeignKept(keys: seq<string>, before: string, after: string) {
    Others(keys, RawLines(after)) == Others(keys, RawLines(before))
  }

  predicate ForeignFeedEnded(keys: seq<string>, text: string) {
    forall i :: 0 <= i < |Others(keys, RawLines(text))| ==> FeedEnded(Others(keys, RawLines(text))[i])
  }

  /** A text rewritten from lines that keep the foreign ones has the foreign bytes of the old text
  exactly when each foreign line of it ended in a line feed alone. */
  lemma RewrittenForeign(keys: seq<string>, text: string, lines: seq<string>)
    requires lines != [] && forall i :: 0 <= i < |lines| ==> '\n' !in lines[i]
    requires Others(keys, lines) == Others(keys, Lines(text))
    ensures ForeignKept(keys, text, FileText(lines)) <==> ForeignFeedEnded(keys, text)
  {
    hide LineKey, Unended, FeedEnded, FileText, Lines, RawLines, Others;
    var raws, news := RawLines(text), RawLines(FileText(lines));
    RawLinesOf(text);
    RawLinesOfWritten(lines);
    OthersUnended(keys, raws, Lines(text));
    OthersEnded(keys, news, lines);
    var old', new', mid := Others(keys, raws), Others(keys, news), Others(keys, lines);
    forall i | 0 <= i < |mid| ensures new'[i] == old'[i] <==> FeedEnded(old'[i]) {
      OthersFree(keys, lines, i);
      RewrittenLine(old'[i], mid[i]);
    }
  }

  lemma {:induction false} OthersFree(keys: seq<string>, lines: seq<string>, i: nat)
    requires i < |Others(keys, lines)|
    ensures Others(keys, lines)[i] in lines
    decreases |lines|
  {
    hide LineKey;
    var n := |lines| - 1;
    if i < |Others(keys, lines[..n])| {
      OthersFree(keys, lines[..n], i);
    }
  }

  /** Removing keys keeps every other line byte for byte exactly when some line is left and each of
  those ended in a line feed alone. */
  lemma RemoveKeepsBytes(keys: seq<string>, text: string)
    ensures ForeignKept(keys, text, FileText(Others(keys, Lines(text)))) <==>
            Others(keys, Lines(text)) != [] && ForeignFeedEnded(keys, text)
  {
    hide LineKey, Unended, FeedEnded, Lines, Others;
    var kept := Others(keys, Lines(text));
    RawLinesOf(text);
    OthersUnended(keys, RawLines(text), Lines(text));
    if kept == [] {
      OnlyAFeed(keys);
    } else {
      OthersHaveNone(keys, Lines(text));
      forall i | 0 <= i < |kept| ensures '\n' !in kept[i] {
        OthersFree(keys, Lines(text), i);
      }
      RewrittenForeign(keys, text, kept);
    }
  }

  /** With no line left a blank one is written. */
  lemma OnlyAFeed(keys: seq<string>)
    ensures Others(keys, RawLines(FileText([]))) == ["\n"]
  {
    FirstRawLine("", "");
    assert "" + "\n" == "\n" && "" + "\n" + "" == "\n";
    assert Trim("\n") == "";
    NoLines(keys);
    OneLineMore(keys, [], "\n");
    assert [] + ["\n"] == ["\n"];
  }

  // ---------- an upsert of the file ----------

  function Keys(vars: Vars): seq<string> {
    seq(|vars|, i requires 0 <= i < |vars| => vars[i].0)
  }

  /** The file after an upsert that is not refused. */
  function Upserted(vars: Vars, text: string): string {
    FileText(PutAll(vars, |vars|, Lines(text)))
  }

  /** No line feed in a key or a value. */
  predicate OneLine(vars: Vars) {
    forall i :: 0 <= i < |vars| ==> '\n' !in vars[i].0 && '\n' !in vars[i].1
  }

  lemma {:induction false} UnmanagedIsOthers(vars: Vars, lines: seq<string>)
    ensures Unmanaged(vars, lines) == Others(Keys(vars), lines)
    decreases |lines|
  {
    hide LineKey;
    if lines != [] {
      UnmanagedIsOthers(vars, lines[..|lines| - 1]);
      var last := lines[|lines| - 1];
      if Manages(vars, last) {
        var i :| 0 <= i < |vars| && vars[i].0 == LineKey(last).value;
        assert Keys(vars)[i] == LineKey(last).value;
      }
    }
  }

  lemma RenderedOneLine(vars: Vars, k: nat)
    requires OneLine(vars) && k < |vars|
    ensures '\n' !in Rendered(vars[k])
  {
  }

  lemma {:induction false} PutAllOneLine(vars: Vars, k: nat, lines: seq<string>)
    requires k <= |vars| && OneLine(vars) && forall i :: 0 <= i < |lines| ==> '\n' !in lines[i]
    ensures forall i :: 0 <= i < |PutAll(vars, k, lines)| ==> '\n' !in PutAll(vars, k, lines)[i]
  {
    hide LineKey, HasKey, Rendered, OneLine;
    if k > 0 {
      PutAllOneLine(vars, k - 1, lines);
      RenderedOneLine(vars, k - 1);
    }
  }

  lemma {:induction false} PutAllNotEmpty(vars: Vars, k: nat, lines: seq<string>)
    requires 0 < k <= |vars|
    ensures PutAll(vars, k, lines) != []
  {
    hide LineKey, Rendered;
    PutAllGrows(vars, k, lines);
    if lines == [] {
      OneMissing(vars, k, lines, 0);
    }
  }

  /** The written lines of an upsert, and what reading them again gives. */
  lemma WrittenAgain(vars: Vars, text: string)
    requires vars != [] && OneLine(vars)
    ensures var after, again := PutAll(vars, |vars|, Lines(text)), Lines(Upserted(vars, text));
            && after != [] && (forall i :: 0 <= i < |after| ==> '\n' !in after[i])
            && |again| == |after| && forall i :: 0 <= i < |after| ==> again[i] == StripReturn(after[i])
  {
    hide LineKey, PutAll, FileText, Lines, RawLines, Unended, StripReturn;
    RawLinesOf(text);
    PutAllOneLine(vars, |vars|, Lines(text));
    PutAllNotEmpty(vars, |vars|, Lines(text));
    LinesWithoutFeeds(PutAll(vars, |vars|, Lines(text)));
  }

  /** An upsert keeps every line of another key byte for byte exactly when each of those ended in a
  line feed alone. */
  lemma UpsertKeepsBytes(vars: Vars, text: string)
    requires vars != [] && Writable(vars, |vars|) && OneLine(vars)
    ensures ForeignKept(Keys(vars), text, Upserted(vars, text)) <==> ForeignFeedEnded(Keys(vars), text)
  {
    hide LineKey, PutAll, FileText, Lines, Others, Unmanaged, ForeignKept, ForeignFeedEnded;
    var after := PutAll(vars, |vars|, Lines(text));
    UpsertHolds(vars, Lines(text));
    UnmanagedIsOthers(vars, Lines(text));
    UnmanagedIsOthers(vars, after);
    WrittenAgain(vars, text);
    RewrittenForeign(Keys(vars), text, after);
  }

  /** Read again, the file holds the variables. */
  lemma UpsertedFileHolds(vars: Vars, text: string)
    requires vars != [] && Writable(vars, |vars|) && OneLine(vars)
    ensures Holds(vars, Lines(Upserted(vars, text)))
  {
    hide LineKey, ParseLine, PutAll, Lines, Upserted, StripReturn, Writable, OneLine;
    var after, again := PutAll(vars, |vars|, Lines(text)), Lines(Upserted(vars, text));
    UpsertHolds(vars, Lines(text));
    WrittenAgain(vars, text);
    forall i | 0 <= i < |after| ensures LineKey(again[i]) == LineKey(after[i]) && ParseLine(again[i]) == ParseLine(after[i]) {
      SameKeys(after[i]);
    }
    forall j | 0 <= j < |vars| ensures HasKey(again, vars[j].0) {
      var i :| 0 <= i < |after| && LineKey(after[i]) == Some(vars[j].0);
      assert LineKey(again[i]) == Some(vars[j].0);
    }
  }

  lemma WrittenOnce(a: seq<string>, b: seq<string>)
    requires a != [] && b != [] && FileText(a) == FileText(b)
    requires (forall i :: 0 <= i < |a| ==> '\n' !in a[i]) && forall i :: 0 <= i < |b| ==> '\n' !in b[i]
    ensures a == b
  {
    hide RawLines, FileText;
    RawLinesOfWritten(a);
    RawLinesOfWritten(b);
    forall i | 0 <= i < |a| ensures a[i] == b[i] {
      assert (a[i] + "\n")[..|a[i]|] == a[i] && (b[i] + "\n")[..|b[i]|] == b[i];
    }
  }

  predicate EndsInReturn(line: string) {
    StripReturn(line) != line
  }

  lemma {:induction false} UnmanagedMembers(vars: Vars, lines: seq<string>, x: string)
    ensures x in Unmanaged(vars, lines) <==> x in lines && !Manages(vars, x)
    decreases |lines|
  {
    hide LineKey, Manages;
    if lines != [] {
      UnmanagedMembers(vars, lines[..|lines| - 1], x);
      assert lines == lines[..|lines| - 1] + [lines[|lines| - 1]];
    }
  }

  lemma RenderedPlain(vars: Vars, j: nat)
    requires j < |vars| && !BothQuotes(vars[j].1)
    ensures !EndsInReturn(Rendered(vars[j]))
  {
  }

  /** No line to be written ends in a carriage return exactly when no foreign one does. */
  lemma ReturnsAreForeign(vars: Vars, lines: seq<string>)
    requires Writable(vars, |vars|)
    ensures var after := PutAll(vars, |vars|, lines);
            (forall i :: 0 <= i < |after| ==> !EndsInReturn(after[i])) <==> forall x :: x in Unmanaged(vars, lines) ==> !EndsInReturn(x)
  {
    hide LineKey, PutAll, Rendered, EndsInReturn, Unmanaged, BothQuotes, IsIdentifier;
    var after := PutAll(vars, |vars|, lines);
    UpsertHolds(vars, lines);
    forall x | x in Unmanaged(vars, lines) ensures x in after {
      UnmanagedMembers(vars, after, x);
    }
    forall i | 0 <= i < |after| ensures after[i] in Unmanaged(vars, lines) || !EndsInReturn(after[i]) {
      UnmanagedMembers(vars, after, after[i]);
      if j :| 0 <= j < |vars| && LineKey(after[i]) == Some(vars[j].0) {
        ManagedLinesAreRendered(vars, lines, i, j);
        RenderedPlain(vars, j);
      }
    }
  }

  /** On disk, upserting the same variables again changes nothing exactly when every key is an
  identifier and no foreign line is read with a carriage return at its end. */
  lemma UpsertTwiceOnDisk(vars: Vars, text: string)
    requires vars != [] && DistinctKeys(vars) && OneLine(vars) && forall i :: 0 <= i < |vars| ==> !BothQuotes(vars[i].1)
    ensures Upserted(vars, Upserted(vars, text)) == Upserted(vars, text) <==>
            && (forall i :: 0 <= i < |vars| ==> IsIdentifier(vars[i].0))
            && (forall x :: x in Unmanaged(vars, Lines(text)) ==> !EndsInReturn(x))
  {
    hide LineKey, PutAll, Lines, FileText, EndsInReturn, Unmanaged, BothQuotes, IsIdentifier, OneLine;
    var once, again := PutAll(vars, |vars|, Lines(text)), Lines(Upserted(vars, text));
    var twice := PutAll(vars, |vars|, again);
    WrittenAgain(vars, text);
    WrittenAgain(vars, Upserted(vars, text));
    if Upserted(vars, Upserted(vars, text)) == Upserted(vars, text) {
      WrittenOnce(twice, once);
    }
    if j :| 0 <= j < |vars| && !IsIdentifier(vars[j].0) {
      StrangeKeyGrows(vars, again, j);
    } else {
      ReturnsAreForeign(vars, Lines(text));
      if forall i :: 0 <= i < |once| ==> !EndsInReturn(once[i]) {
        assert again == once by { Unreturned(once, again); }
        IdentifiersSettle(vars, Lines(text));
      } else {
        var i :| 0 <= i < |once| && EndsInReturn(once[i]);
        ReturnChangesAgain(vars, Lines(text), again, i);
      }
    }
  }

  lemma Unreturned(once: seq<string>, again: seq<string>)
    requires |again| == |once| && forall i :: 0 <= i < |once| ==> again[i] == StripReturn(once[i]) && !EndsInReturn(once[i])
    ensures again == once
  {
  }

  /** A foreign line that lost its carriage return stays without it. */
  lemma ReturnChangesAgain(vars: Vars, lines: seq<string>, again: seq<string>, i: nat)
    requires Writable(vars, |vars|)
    requires var once := PutAll(vars, |vars|, lines);
             |again| == |once| && i < |once| && again[i] == StripReturn(once[i]) && EndsInReturn(once[i])
    ensures PutAll(vars, |vars|, again) != PutAll(vars, |vars|, lines)
  {
    hide LineKey, ParseLine, PutAll, Rendered, BothQuotes, IsIdentifier, StripReturn;
    var once := PutAll(vars, |vars|, lines);
    SameKeys(once[i]);
    if j :| 0 <= j < |vars| && LineKey(once[i]) == Some(vars[j].0) {
      ManagedLinesAreRendered(vars, lines, i, j);
      RenderedPlain(vars, j);
      assert false;
    }
    PutAllPlaces(vars, |vars|, again);
    assert InPlace(vars, |vars|, again[i], PutAll(vars, |vars|, again)[i]);
  }

  // ---------- a file that loses bytes ----------

  function ReturnFile(): string {
    "# note\r\nA=1\n"
  }

  lemma ReturnFileLines()
    ensures RawLines(ReturnFile()) == ["# note\r\n", "A=1\n"]
  {
    hide RawLines;
    var a, b := "# note\r", "A=1";
    FirstRawLine(b, "");
    FirstRawLine(a, b + "\n" + "");
    assert b + "\n" + "" == "A=1\n" && b + "\n" == "A=1\n";
    assert a + "\n" == "# note\r\n" && a + "\n" + "A=1\n" == ReturnFile();
    EmptyText("");
    assert ["A=1\n"] + [] == ["A=1\n"];
  }

  lemma NoteHasNoKey()
    ensures LineKey("# note\r\n") == None
  {
    var s := "# note\r\n";
    assert TrimStart(s) == s;
    assert TrimEnd(s)[0] == '#' by {
      EndKeepsFirst(s);
    }
  }

  lemma {:induction false} EndKeepsFirst(s: string)
    requires s != "" && !IsSpace(s[0])
    ensures TrimEnd(s) != "" && TrimEnd(s)[0] == s[0]
    decreases |s|
  {
    if IsSpace(s[|s| - 1]) {
      EndKeepsFirst(s[..|s| - 1]);
    }
  }

  /** The comment of this file does not survive an upsert of `A`, nor the removal of a key. */
  lemma CarriageReturnsAreLost()
    ensures !ForeignKept(["A"], ReturnFile(), Upserted([("A", "2")], ReturnFile()))
    ensures !ForeignKept(["A"], ReturnFile(), FileText(Others(["A"], Lines(ReturnFile()))))
  {
    hide LineKey, Lines, RawLines, ForeignKept, FileText, PutAll;
    var keys, raws := ["A"], RawLines(ReturnFile());
    ReturnFileLines();
    NoteHasNoKey();
    NoLines(keys);
    OneLineMore(keys, [], raws[0]);
    assert [] + [raws[0]] == raws[..1];
    OneLineMore(keys, raws[..1], raws[1]);
    assert raws[..1] + [raws[1]] == raws;
    assert Others(keys, raws)[0] == raws[0] && !FeedEnded(raws[0]);
    RemoveKeepsBytes(keys, ReturnFile());
    var vars: Vars := [("A", "2")];
    assert Keys(vars) == keys;
    assert IsIdentifier("A");
    UpsertKeepsBytes(vars, ReturnFile());
  }

  datatype Disk = Absent | Unreadable | Content(text: string)

  class EnvFileOnDisk {
    var disk: Disk

    constructor (disk: Disk)
      ensures this.disk == disk
    {
      this.disk := disk;
    }

    /** The lines an edit starts from; a file that cannot be read counts as empty. */
    function Known(): seq<string>
      reads this
    {
      if disk.Content? then Lines(disk.text) else []
    }

    /** Written whole, or not at all: a refused value leaves the file alone. */
    method Upsert(vars: Vars) returns (r: Result<(), ()>)
      modifies this
      ensures r.Err? <==> exists i :: 0 <= i < |vars| && BothQuotes(vars[i].1)
      ensures disk == if r.Err? || vars == [] then old(disk) else Content(FileText(PutAll(vars, |vars|, old(Known()))))
      ensures r.Ok? && vars != [] && Named(vars) && OneLine(vars) ==> Holds(vars, Known())
      ensures r.Ok? && vars != [] && Named(vars) && OneLine(vars) && old(disk).Content? ==>
                (ForeignKept(Keys(vars), old(disk).text, disk.text) <==> ForeignFeedEnded(Keys(vars), old(disk).text))
    {
      hide LineKey, ParseLine, RenderLine, Rendered, Lines, IsIdentifier, BothQuotes, HasKey, FileText, Put, ForeignKept, ForeignFeedEnded, OneLine, Holds;
      if vars == [] {
        return Ok(());
      }
      var lines0 := Known();
      var lines := lines0;
      for k := 0 to |vars|
        invariant forall i :: 0 <= i < k ==> !BothQuotes(vars[i].1)
        invariant lines == PutAll(vars, k, lines0) && disk == old(disk)
      {
        RenderedReadsBack(vars[k].0, vars[k].1);
        if RenderLine(vars[k].0, vars[k].1).Err? {
          return Err(());
        }
        lines := PutLine(lines, vars[k], HasKey(lines0, vars[k].0));
      }
      disk := Content(FileText(lines));
      if Named(vars) && OneLine(vars) {
        ghost var text := if old(disk).Content? then old(disk).text else "";
        assert lines0 == Lines(text) by { NothingToRead(); }
        UpsertedFileHolds(vars, text);
        UpsertKeepsBytes(vars, text);
      }
      return Ok(());
    }

    /** Every line of the given keys goes, and nothing else; with none to remove the file is not written. */
    method Remove(keys: seq<string>) returns (removed: seq<string>)
      modifies this
      ensures removed == RemovedKeys(keys, old(Known()))
      ensures removed == [] ==> disk == old(disk) && Others(keys, old(Known())) == old(Known())
      ensures removed != [] ==> disk == Content(FileText(Others(keys, old(Known()))))
      ensures removed != [] ==>
                && old(disk).Content?
                && (ForeignKept(keys, old(disk).text, disk.text) <==>
                    Others(keys, old(Known())) != [] && ForeignFeedEnded(keys, old(disk).text))
    {
      hide LineKey, Lines, FileText, Others, RemovedKeys, Gone, ForeignKept, ForeignFeedEnded;
      var lines := Known();
      var kept: seq<string> := [];
      removed := [];
      NoLines(keys);
      for i := 0 to |lines|
        invariant kept == Others(keys, lines[..i]) && (removed == [] ==> kept == lines[..i])
        invariant removed == RemovedKeys(keys, lines[..i]) && disk == old(disk)
      {
        OneLineMore(keys, lines[..i], lines[i]);
        assert lines[..i] + [lines[i]] == lines[..i + 1];
        if Gone(keys, lines[i]) {
          GoneHasKey(keys, lines[i]);
          removed := removed + [LineKey(lines[i]).value];
        } else {
          kept := kept + [lines[i]];
        }
      }
      assert lines[..|lines|] == lines;
      if removed == [] {
        return;
      }
      if disk.Content? {
        RemoveKeepsBytes(keys, disk.text);
      }
      disk := Content(FileText(kept));
    }
  }

  lemma NothingToRead()
    ensures Lines("") == []
  {
  }

  /** The lines whose key is not among `keys`. */
  function Others(keys: seq<string>, lines: seq<string>): seq<string> {
    if lines == [] then []
    else
      var last := lines[|lines| - 1];
      Others(keys, lines[..|lines| - 1]) + if LineKey(last).Some? && LineKey(last).value in keys then [] else [last]
  }

  /** The keys of the lines that go, in file order. */
  function RemovedKeys(keys: seq<string>, lines: seq<string>): seq<string> {
    if lines == [] then []
    else
      var last := lines[|lines| - 1];
      RemovedKeys(keys, lines[..|lines| - 1]) + if LineKey(last).Some? && LineKey(last).value in keys then [LineKey(last).value] else []
  }

  predicate Gone(keys: seq<string>, line: string) {
    LineKey(line).Some? && LineKey(line).value in keys
  }

  lemma OneLineMore(keys: seq<string>, lines: seq<string>, line: string)
    ensures Others(keys, lines + [line]) == if Gone(keys, line) then Others(keys, lines) else Others(keys, lines) + [line]
    ensures RemovedKeys(keys, lines + [line]) == if Gone(keys, line) then RemovedKeys(keys, lines) + [LineKey(line).value] else RemovedKeys(keys, lines)
  {
    hide LineKey;
    assert (lines + [line])[..|lines|] == lines;
  }

  /** What is left after a removal has none of the keys, so a second removal finds nothing; and every
  line was either kept or reported. */
  lemma {:induction false} OthersHaveNone(keys: seq<string>, lines: seq<string>)
    ensures forall i :: 0 <= i < |Others(keys, lines)| ==> !Gone(keys, Others(keys, lines)[i])
    ensures Others(keys, Others(keys, lines)) == Others(keys, lines) && RemovedKeys(keys, Others(keys, lines)) == []
    ensures |Others(keys, lines)| + |RemovedKeys(keys, lines)| == |lines|
    decreases |lines|
  {
    hide LineKey, Others, RemovedKeys, Gone;
    if lines == [] {
      NoLines(keys);
    } else {
      var init, last := lines[..|lines| - 1], lines[|lines| - 1];
      OthersHaveNone(keys, init);
      OneLineMore(keys, init, last);
      assert lines == init + [last];
      if !Gone(keys, last) {
        OneLineMore(keys, Others(keys, init), last);
      }
    }
  }

  lemma GoneHasKey(keys: seq<string>, line: string)
    ensures Gone(keys, line) ==> LineKey(line).Some?
  {
  }

  lemma NoLines(keys: seq<string>)
    ensures Others(keys, []) == [] && RemovedKeys(keys, []) == []
  {
  }

  /** What an upsert amounts to, for identifier keys and values that can be written: every line of a
  managed key reads back its variable, every managed key has a line, and the other lines stay in
  their order. */
  lemma UpsertHolds(vars: Vars, lines: seq<string>)
    requires Writable(vars, |vars|)
    ensures var after := PutAll(vars, |vars|, lines);
            Holds(vars, after) && Keeps(vars, lines, after)
  {
    hide PutAll, Holds, Keeps, Writable;
    PutAllHolds(vars, |vars|, lines);
    assert vars[..|vars|] == vars;
  }

  /** Every line of a managed key is the rendered line itself. */
  lemma ManagedLinesAreRendered(vars: Vars, lines: seq<string>, i: nat, j: nat)
    requires Writable(vars, |vars|) && i < |PutAll(vars, |vars|, lines)| && j < |vars|
    requires LineKey(PutAll(vars, |vars|, lines)[i]) == Some(vars[j].0)
    ensures PutAll(vars, |vars|, lines)[i] == Rendered(vars[j])
  {
    hide LineKey, PutAll, Rendered, RenderLine, ParseLine, BothQuotes, IsIdentifier, HasKey;
    var n, after := |vars|, PutAll(vars, |vars|, lines);
    PutAllPlaces(vars, n, lines);
    if i < |lines| {
      InPlaceKey(vars, lines[i], after[i]);
    } else {
      assert after[i] == after[|lines|..][i - |lines|];
      NewIsRendered(vars, n, lines, i - |lines|, j);
    }
  }

  lemma InPlaceKey(vars: Vars, before: string, after: string)
    requires Writable(vars, |vars|) && InPlace(vars, |vars|, before, after)
    ensures LineKey(after) == LineKey(before)
  {
    hide LineKey, Rendered, RenderLine, ParseLine, BothQuotes, IsIdentifier;
    if j :| 0 <= j < |vars| && LineKey(before) == Some(vars[j].0) {
      RenderedIsManaged(vars, j);
    }
  }

  lemma {:induction false} NewIsRendered(vars: Vars, k: nat, lines: seq<string>, i: nat, j: nat)
    requires k <= |vars| && Writable(vars, k) && i < |NewLines(vars, k, lines)| && j < |vars|
    requires LineKey(NewLines(vars, k, lines)[i]) == Some(vars[j].0)
    ensures NewLines(vars, k, lines)[i] == Rendered(vars[j])
  {
    hide LineKey, Rendered, RenderLine, ParseLine, BothQuotes, IsIdentifier, HasKey;
    if i < |NewLines(vars, k - 1, lines)| {
      NewIsRendered(vars, k - 1, lines, i, j);
    } else {
      RenderedIsManaged(vars, k - 1);
    }
  }

  lemma {:induction false} NothingNew(vars: Vars, k: nat, lines: seq<string>)
    requires k <= |vars| && forall j :: 0 <= j < k ==> HasKey(lines, vars[j].0)
    ensures NewLines(vars, k, lines) == []
  {
    hide HasKey, Rendered;
    if k > 0 {
      NothingNew(vars, k - 1, lines);
    }
  }

  lemma IdentifiersSettle(vars: Vars, lines: seq<string>)
    requires Writable(vars, |vars|)
    ensures var once := PutAll(vars, |vars|, lines);
            PutAll(vars, |vars|, once) == once
  {
    hide LineKey, PutAll, Rendered, RenderLine, ParseLine, BothQuotes, IsIdentifier, HasKey;
    var n, once := |vars|, PutAll(vars, |vars|, lines);
    var twice := PutAll(vars, n, once);
    UpsertHolds(vars, lines);
    PutAllPlaces(vars, n, once);
    NothingNew(vars, n, once);
    assert |twice| == |once|;
    forall i | 0 <= i < |once| ensures twice[i] == once[i] {
      if j :| 0 <= j < n && LineKey(once[i]) == Some(vars[j].0) {
        ManagedLinesAreRendered(vars, lines, i, j);
      }
    }
  }

  /** How many of the first `k` variables have no line. */
  function Missing(vars: Vars, k: nat, lines: seq<string>): nat
    requires k <= |vars|
  {
    if k == 0 then 0 else Missing(vars, k - 1, lines) + if HasKey(lines, vars[k - 1].0) then 0 else 1
  }

  /** An upsert appends one line for every variable without one, whatever the keys. */
  lemma {:induction false} PutAllGrows(vars: Vars, k: nat, lines: seq<string>)
    requires k <= |vars|
    ensures |PutAll(vars, k, lines)| == |lines| + Missing(vars, k, lines)
  {
    hide HasKey, Rendered;
    if k > 0 {
      PutAllGrows(vars, k - 1, lines);
    }
  }

  lemma {:induction false} OneMissing(vars: Vars, k: nat, lines: seq<string>, j: nat)
    requires j < k <= |vars| && !HasKey(lines, vars[j].0)
    ensures Missing(vars, k, lines) > 0
  {
    hide HasKey;
    if j < k - 1 {
      OneMissing(vars, k - 1, lines, j);
    }
  }

  lemma NeverFound(lines: seq<string>, key: string)
    requires !IsIdentifier(key)
    ensures !HasKey(lines, key)
  {
    hide LineKey, IsIdentifier;
    forall i | 0 <= i < |lines| ensures LineKey(lines[i]) != Some(key) {
      KeysAreIdentifiers(lines[i]);
    }
  }

  /** A key that is no identifier gets a new line from every upsert. */
  lemma StrangeKeyGrows(vars: Vars, lines: seq<string>, j: nat)
    requires j < |vars| && !IsIdentifier(vars[j].0)
    ensures |PutAll(vars, |vars|, lines)| > |lines|
  {
    hide HasKey, IsIdentifier;
    NeverFound(lines, vars[j].0);
    PutAllGrows(vars, |vars|, lines);
    OneMissing(vars, |vars|, lines, j);
  }

  /** Upserting the same variables again changes nothing exactly when every key is an identifier. */
  lemma UpsertTwiceIsOnce(vars: Vars, lines: seq<string>)
    requires DistinctKeys(vars) && forall i :: 0 <= i < |vars| ==> !BothQuotes(vars[i].1)
    ensures var once := PutAll(vars, |vars|, lines);
            PutAll(vars, |vars|, once) == once <==> forall i :: 0 <= i < |vars| ==> IsIdentifier(vars[i].0)
  {
    hide PutAll, BothQuotes, IsIdentifier;
    if forall i :: 0 <= i < |vars| ==> IsIdentifier(vars[i].0) {
      IdentifiersSettle(vars, lines);
    } else {
      var j :| 0 <= j < |vars| && !IsIdentifier(vars[j].0);
      StrangeKeyGrows(vars, PutAll(vars, |vars|, lines), j);
    }
  }

  method PutLine(lines0: seq<string>, v: (string, string), existed: bool) returns (lines: seq<string>)
    ensures lines == Put(lines0, v, existed)
  {
    hide LineKey, Rendered;
    if existed {
      lines := lines0;
      for i := 0 to |lines0|
        invariant |lines| == |lines0| && lines[i..] == lines0[i..]
        invariant lines[..i] == Replaced(lines0, v.0, Rendered(v))[..i]
      {
        assert lines[i] == lines[i..][0] == lines0[i..][0] == lines0[i];
        if LineKey(lines[i]) == Some(v.0) {
          lines := lines[i := Rendered(v)];
        }
      }
      assert lines == lines[..|lines0|];
    } else {
      lines := lines0 + [Rendered(v)];
    }
  }

  /** The keys still to come have a line exactly when they had one at the start. */
  ghost predicate Untouched(vars: Vars, k: nat, lines0: seq<string>, lines: seq<string>) {
    forall j :: k <= j < |vars| ==> (HasKey(lines, vars[j].0) <==> HasKey(lines0, vars[j].0))
  }

  lemma NothingPut(vars: Vars, lines: seq<string>)
    ensures Holds(vars[..0], lines) && Keeps(vars, lines, lines) && Untouched(vars, 0, lines, lines)
  {
  }

  lemma PutUntouched(vars: Vars, k: nat, lines0: seq<string>, lines: seq<string>)
    requires Named(vars) && k < |vars| && !BothQuotes(vars[k].1) && Untouched(vars, k, lines0, lines)
    ensures Untouched(vars, k + 1, lines0, Put(lines, vars[k], HasKey(lines0, vars[k].0)))
  {
    hide HasKey, Put, LineKey;
    forall j | k + 1 <= j < |vars|
      ensures HasKey(Put(lines, vars[k], HasKey(lines0, vars[k].0)), vars[j].0) <==> HasKey(lines0, vars[j].0)
    {
      OtherKeys(vars, k, lines, HasKey(lines0, vars[k].0), j);
    }
  }
}
