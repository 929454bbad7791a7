/** The durable JSON-lines log of `jsonl.rs`. */
module Jsonl {
  import opened Wrappers

  /* The forward loader, the writer, and the backward tail reader, which must answer what the loader
  would without reading the whole file.  A file is its bytes.  Decoding one line is left to a codec;
  what the reader relies on is how bytes split into lines, and that the split does not depend on
  where chunks end. */

  newtype byte = x: int | 0 <= x < 256

  const NL: byte := 10
  const CR: byte := 13

  // ---------- text ----------

  predicate Continuation(b: byte) {
    0x80 <= b <= 0xBF
  }

  /** Length of the well-formed UTF-8 character `s` starts with, 0 when there is none: the
  byte ranges of section 4 of RFC 3629. */
  function CharLen(s: seq<byte>): (n: nat)
    ensures n <= |s| && n <= 4
  {
    if s == [] then 0
    else if s[0] < 0x80 then 1
    else if |s| >= 2 && 0xC2 <= s[0] <= 0xDF && Continuation(s[1]) then 2
    else if |s| >= 3 && Continuation(s[1]) && Continuation(s[2]) &&
            ((s[0] == 0xE0 && 0xA0 <= s[1]) || 0xE1 <= s[0] <= 0xEC || (s[0] == 0xED && s[1] <= 0x9F) || 0xEE <= s[0] <= 0xEF)
    then 3
    else if |s| >= 4 && Continuation(s[1]) && Continuation(s[2]) && Continuation(s[3]) &&
            ((s[0] == 0xF0 && 0x90 <= s[1]) || 0xF1 <= s[0] <= 0xF3 || (s[0] == 0xF4 && s[1] <= 0x8F))
    then 4
    else 0
  }

  predicate Utf8(s: seq<byte>) {
    s == [] || (CharLen(s) > 0 && Utf8(s[CharLen(s)..]))
  }

  predicate Whitespace(b: byte) {
    9 <= b <= 13 || b == 32
  }

  function TrimEnd(s: seq<byte>): (t: seq<byte>)
    ensures t <= s
  {
    if s != [] && Whitespace(s[|s| - 1]) then TrimEnd(s[..|s| - 1]) else s
  }

  function TrimStart(s: seq<byte>): seq<byte> {
    if s != [] && Whitespace(s[0]) then TrimStart(s[1..]) else s
  }

  function Trim(s: seq<byte>): seq<byte> {
    TrimStart(TrimEnd(s))
  }

  /** The pieces between newlines, the text after the last newline included. */
  function Pieces(s: seq<byte>): (p: seq<seq<byte>>)
    ensures |p| >= 1
  {
    if s == [] then [[]]
    else
      var rest := Pieces(s[1..]);
      if s[0] == NL then [[]] + rest else [[s[0]] + rest[0]] + rest[1..]
  }

  /** The lines of a text: pieces, less an empty last one, less one carriage return each. */
  function TextLines(s: seq<byte>): seq<seq<byte>> {
    var p := Pieces(s);
    var q := if p[|p| - 1] == [] then p[..|p| - 1] else p;
    seq(|q|, i requires 0 <= i < |q| => if q[i] != [] && q[i][|q[i]| - 1] == CR && i < |p| - 1 then q[i][..|q[i]| - 1] else q[i])
  }

  // ---------- records ----------

  /** `parse` reads one trimmed line, `render` writes one record. */
  datatype Codec<!T> = Codec(parse: seq<byte> -> Option<T>, render: T -> seq<byte>)

  /** An empty line is no record. */
  ghost predicate SkipsEmpty<T>(c: Codec<T>) {
    c.parse([]).None?
  }

  /** What is written on one line reads back. */
  ghost predicate RoundTrips<T>(c: Codec<T>, v: T) {
    && NL !in c.render(v) && Utf8(c.render(v))
    && c.parse(Trim(c.render(v))) == Some(v)
  }

  function Decode<T>(c: Codec<T>, line: seq<byte>): Option<T> {
    if Utf8(line) then c.parse(Trim(line)) else None
  }

  /** The record of one line, when it has one that is kept. */
  function One<T>(c: Codec<T>, keep: T -> bool, line: seq<byte>): seq<T> {
    match Decode(c, line)
    case Some(v) => if keep(v) then [v] else []
    case None => []
  }

  function RowsOf<T>(c: Codec<T>, keep: T -> bool, lines: seq<seq<byte>>): seq<T> {
    if lines == [] then [] else One(c, keep, lines[0]) + RowsOf(c, keep, lines[1..])
  }

  /** The kept records of a file, oldest first. */
  function Rows<T>(c: Codec<T>, keep: T -> bool, file: seq<byte>): seq<T> {
    RowsOf(c, keep, Pieces(file))
  }

  function Filter<T>(keep: T -> bool, s: seq<T>): seq<T> {
    if s == [] then []
    else if keep(s[0]) then [s[0]] + Filter(keep, s[1..])
    else Filter(keep, s[1..])
  }

  function Reverse<T>(s: seq<T>): (r: seq<T>)
    ensures |r| == |s|
    ensures forall i :: 0 <= i < |s| ==> r[i] == s[|s| - 1 - i]
  {
    if s == [] then [] else Reverse(s[1..]) + [s[0]]
  }

  function Last<T>(s: seq<T>, n: nat): seq<T> {
    if n >= |s| then s else s[|s| - n..]
  }

  /** What the forward loader answers: nothing at all for a file that is not text. */
  function Loaded<T>(c: Codec<T>, file: seq<byte>): seq<T> {
    if Utf8(file) then Rows(c, (_: T) => true, file) else []
  }

  // ---------- splitting ----------

  lemma {:induction false} PiecesSplit(a: seq<byte>, b: seq<byte>)
    ensures Pieces(a + [NL] + b) == Pieces(a) + Pieces(b)
  {
    var s := a + [NL] + b;
    if a == [] {
      assert s[1..] == b;
    } else {
      assert s[1..] == a[1..] + [NL] + b;
      PiecesSplit(a[1..], b);
    }
  }

  lemma {:induction false} PiecesOfLine(a: seq<byte>)
    requires NL !in a
    ensures Pieces(a) == [a]
  {
    if a != [] {
      PiecesOfLine(a[1..]);
      assert a == [a[0]] + a[1..];
    }
  }

  lemma {:induction false} RowsOfAppend<T>(c: Codec<T>, keep: T -> bool, p: seq<seq<byte>>, q: seq<seq<byte>>)
    ensures RowsOf(c, keep, p + q) == RowsOf(c, keep, p) + RowsOf(c, keep, q)
  {
    if p == [] {
      assert p + q == q;
    } else {
      assert (p + q)[1..] == p[1..] + q;
      RowsOfAppend(c, keep, p[1..], q);
    }
  }

  /** A newline separates the records before it from the records after it. */
  lemma RowsSplit<T>(c: Codec<T>, keep: T -> bool, a: seq<byte>, b: seq<byte>)
    ensures Rows(c, keep, a + [NL] + b) == Rows(c, keep, a) + Rows(c, keep, b)
  {
    PiecesSplit(a, b);
    RowsOfAppend(c, keep, Pieces(a), Pieces(b));
  }

  lemma RowsOfLine<T>(c: Codec<T>, keep: T -> bool, line: seq<byte>)
    requires NL !in line
    ensures Rows(c, keep, line) == One(c, keep, line)
  {
    PiecesOfLine(line);
    assert RowsOf(c, keep, [line][1..]) == [];
  }

  lemma {:induction false} Utf8Split(a: seq<byte>, b: seq<byte>)
    ensures Utf8(a + [NL] + b) <==> Utf8(a) && Utf8(b)
    decreases |a|
  {
    var s := a + [NL] + b;
    if a == [] {
      assert s[1..] == b;
    } else {
      assert CharLen(s) == CharLen(a) by {
        assert forall i :: 0 <= i < |a| ==> s[i] == a[i];
        assert s[|a|] == NL && !Continuation(NL);
      }
      var n := CharLen(a);
      if n > 0 {
        assert s[n..] == a[n..] + [NL] + b;
        Utf8Split(a[n..], b);
      }
    }
  }

  /** The newline a line was read with does not change what it decodes to. */
  lemma OneIgnoresNewline<T>(c: Codec<T>, keep: T -> bool, line: seq<byte>)
    ensures One(c, keep, line + [NL]) == One(c, keep, line)
  {
    Utf8Split(line, []);
    assert line + [NL] + [] == line + [NL];
    assert (line + [NL])[..|line|] == line;
  }

  lemma {:induction false} ReverseAppend<T>(a: seq<T>, b: seq<T>)
    ensures Reverse(a + b) == Reverse(b) + Reverse(a)
  {
    var l, r := Reverse(a + b), Reverse(b) + Reverse(a);
    assert |l| == |r|;
    forall i | 0 <= i < |l| ensures l[i] == r[i] {
    }
  }

  // ---------- the backward reader ----------

  /** The bytes read so far: a first line still growing backwards, then whole lines. */
  ghost predicate Scanned(rest: seq<byte>, pending: seq<byte>, done: seq<byte>) {
    && rest == pending + done
    && (NL in pending ==> pending[|pending| - 1] == NL && NL !in pending[..|pending| - 1])
    && (NL !in pending ==> done == [])
  }

  lemma RowsOfEmpty<T>(c: Codec<T>, keep: T -> bool)
    requires SkipsEmpty(c)
    ensures Rows(c, keep, []) == []
  {
    RowsOfLine(c, keep, []);
    assert Trim([]) == [];
  }

  /** The growing line, once its head is known, is one record ahead of the others. */
  lemma RowsOfScanned<T>(c: Codec<T>, keep: T -> bool, rest: seq<byte>, pending: seq<byte>, done: seq<byte>)
    requires SkipsEmpty(c) && Scanned(rest, pending, done)
    ensures Rows(c, keep, rest) == One(c, keep, pending) + Rows(c, keep, done)
  {
    if NL in pending {
      var line := pending[..|pending| - 1];
      assert pending == line + [NL];
      OneIgnoresNewline(c, keep, line);
      RowsOfLine(c, keep, line);
      RowsSplit(c, keep, line, done);
      assert rest == line + [NL] + done;
    } else {
      RowsOfLine(c, keep, pending);
      assert rest == pending;
      RowsOfEmpty(c, keep);
    }
  }

  /** Gluing: bytes without a newline extend the growing line to the left. */
  lemma GlueScanned(run: seq<byte>, rest: seq<byte>, pending: seq<byte>, done: seq<byte>)
    requires Scanned(rest, pending, done) && NL !in run
    ensures Scanned(run + rest, run + pending, done)
  {
    var p := run + pending;
    if NL in pending {
      assert p[|p| - 1] == NL;
      assert p[..|p| - 1] == run + pending[..|pending| - 1];
    }
    assert run + rest == p + done;
  }

  method Position(buf: seq<byte>) returns (first: int, last: int)
    ensures NL !in buf ==> first == last == -1
    ensures NL in buf ==>
              0 <= first <= last < |buf| && buf[first] == NL && buf[last] == NL
              && NL !in buf[..first] && NL !in buf[last + 1..]
  {
    first, last := -1, -1;
    for i := 0 to |buf|
      invariant first == -1 <==> last == -1
      invariant first == -1 ==> NL !in buf[..i]
      invariant first != -1 ==> 0 <= first <= last < i && buf[first] == NL && buf[last] == NL && NL !in buf[..first]
      invariant first != -1 ==> forall j :: last < j < i ==> buf[j] != NL
    {
      if buf[i] == NL {
        if first == -1 {
          first := i;
        }
        last := i;
      }
    }
    assert buf[..|buf|] == buf;
  }

  method KeptLine<T>(c: Codec<T>, keep: T -> bool, line: seq<byte>) returns (rows: seq<T>)
    requires SkipsEmpty(c)
    ensures rows == One(c, keep, line)
  {
    var text := if Utf8(line) then Trim(line) else [];
    rows := [];
    if text != [] {
      var v := c.parse(text);
      if v.Some? && keep(v.value) {
        rows := [v.value];
      }
    }
  }

  /** The complete middle lines of one chunk. */
  method KeptMiddles<T>(c: Codec<T>, keep: T -> bool, middles: seq<byte>) returns (rows: seq<T>)
    requires SkipsEmpty(c)
    ensures rows == Rows(c, keep, middles)
  {
    var pieces := Pieces(middles);
    rows := [];
    for i := 0 to |pieces|
      invariant rows == RowsOf(c, keep, pieces[..i])
    {
      var row := KeptLine(c, keep, pieces[i]);
      RowsOfAppend(c, keep, pieces[..i], [pieces[i]]);
      assert pieces[..i] + [pieces[i]] == pieces[..i + 1];
      assert RowsOf(c, keep, [pieces[i]][1..]) == [];
      rows := rows + row;
    }
    assert pieces[..|pieces|] == pieces;
  }

  /** What one round over a chunk adds: its middle lines, then the line it completes. */
  function ChunkRows<T>(c: Codec<T>, keep: T -> bool, buf: seq<byte>, first: int, last: int, pending: seq<byte>): seq<T>
    requires 0 <= first <= last < |buf|
  {
    (if first < last then Rows(c, keep, buf[first + 1..last]) else []) + One(c, keep, buf[last + 1..] + pending)
  }

  method KeptChunk<T>(c: Codec<T>, keep: T -> bool, buf: seq<byte>, first: int, last: int, pending: seq<byte>)
    returns (rows: seq<T>)
    requires SkipsEmpty(c) && 0 <= first <= last < |buf|
    ensures rows == ChunkRows(c, keep, buf, first, last, pending)
  {
    rows := [];
    if first + 1 <= last {
      rows := KeptMiddles(c, keep, buf[first + 1..last]);
    }
    var row := KeptLine(c, keep, buf[last + 1..] + pending);
    rows := rows + row;
  }

  lemma ChunkScanned(buf: seq<byte>, first: int, rest: seq<byte>)
    requires 0 <= first < |buf| && buf[first] == NL && NL !in buf[..first]
    ensures Scanned(buf + rest, buf[..first + 1], buf[first + 1..] + rest)
  {
    var head := buf[..first + 1];
    assert head[first] == NL;
    assert head[..|head| - 1] == buf[..first];
    assert buf + rest == head + (buf[first + 1..] + rest);
  }

  /** One backward round over a chunk that holds a newline. */
  lemma ChunkRound<T>(c: Codec<T>, keep: T -> bool, buf: seq<byte>, first: int, last: int,
                      rest: seq<byte>, pending: seq<byte>, done: seq<byte>)
    requires SkipsEmpty(c) && Scanned(rest, pending, done)
    requires 0 <= first <= last < |buf| && buf[last] == NL && NL !in buf[last + 1..]
    ensures Rows(c, keep, buf[first + 1..] + rest) == ChunkRows(c, keep, buf, first, last, pending) + Rows(c, keep, done)
  {
    var tail := buf[last + 1..];
    GlueScanned(tail, rest, pending, done);
    RowsOfScanned(c, keep, tail + rest, tail + pending, done);
    if first < last {
      var middles := buf[first + 1..last];
      assert buf[first + 1..] + rest == middles + [NL] + (tail + rest);
      RowsSplit(c, keep, middles, tail + rest);
    } else {
      assert buf[first + 1..] + rest == tail + rest;
    }
  }

  /** A round's rows, reversed, go after the newer ones already held. */
  lemma HoldRound<T>(held: seq<T>, chunk: seq<T>, older: seq<T>, rows: seq<T>)
    requires held == Reverse(older) && rows == chunk + older
    ensures held + Reverse(chunk) == Reverse(rows)
  {
    ReverseAppend(chunk, older);
  }

  /** One backward round: the rows the chunk completes and the line still growing after it. */
  method ReadChunk<T>(c: Codec<T>, keep: T -> bool, buf: seq<byte>, ghost rest: seq<byte>, pending: seq<byte>, ghost done: seq<byte>)
    returns (rows: seq<T>, pending': seq<byte>, ghost done': seq<byte>)
    requires SkipsEmpty(c) && Scanned(rest, pending, done)
    ensures Scanned(buf + rest, pending', done')
    ensures Rows(c, keep, done') == rows + Rows(c, keep, done)
    ensures forall d :: Scanned(buf + rest, pending', d) ==> Rows(c, keep, d) == rows + Rows(c, keep, done)
  {
    var first, last := Position(buf);
    if last != -1 {
      rows := KeptChunk(c, keep, buf, first, last, pending);
      ChunkRound(c, keep, buf, first, last, rest, pending, done);
      ChunkScanned(buf, first, rest);
      pending', done' := buf[..first + 1], buf[first + 1..] + rest;
    } else {
      GlueScanned(buf, rest, pending, done);
      rows, pending', done' := [], buf + pending, done;
    }
    forall d | Scanned(buf + rest, pending', d) ensures d == done' {
      OneScan(buf + rest, pending', d, done');
    }
  }

  lemma OneScan(rest: seq<byte>, pending: seq<byte>, a: seq<byte>, b: seq<byte>)
    requires Scanned(rest, pending, a) && Scanned(rest, pending, b)
    ensures a == b
  {
    assert a == rest[|pending|..] == b;
  }

  lemma NothingScanned<T>(file: seq<byte>)
    ensures Scanned(file[|file|..], [], []) && Reverse<T>([]) == []
  {
  }

  /** Whatever was not scanned only adds records before the ones already held. */
  lemma TailIsSuffix<T>(c: Codec<T>, keep: T -> bool, file: seq<byte>, start: nat, pending: seq<byte>, done: seq<byte>)
    requires SkipsEmpty(c) && start <= |file| && Scanned(file[start..], pending, done)
    ensures var all, held := Rows(c, keep, file), Rows(c, keep, done);
            |held| <= |all| && all[|all| - |held|..] == held
  {
    if NL in pending {
      var before := file[..start] + pending[..|pending| - 1];
      assert file == file[..start] + file[start..];
      assert file == before + [NL] + done;
      RowsSplit(c, keep, before, done);
    } else {
      RowsOfEmpty(c, keep);
    }
  }

  /** Keeping the newest `limit` of the held rows keeps the newest `limit` of all rows. */
  lemma WindowOfSuffix<T>(all: seq<T>, held: seq<T>, limit: nat)
    requires |held| <= |all| && all[|all| - |held|..] == held
    requires |held| == |all| || limit <= |held|
    ensures Last(held, limit) == Last(all, limit)
  {
  }

  method NewestFirst<T>(matchedRev: seq<T>, limit: nat, ghost held: seq<T>) returns (rows: seq<T>)
    requires matchedRev == Reverse(held)
    ensures rows == Last(held, limit)
  {
    var window := if limit < |matchedRev| then matchedRev[..limit] else matchedRev;
    rows := Reverse(window);
    var goal := Last(held, limit);
    assert |rows| == |goal|;
    forall i | 0 <= i < |rows| ensures rows[i] == goal[i] {
    }
  }

  /** The chunk that ends where the scan has come to. */
  method ReadBack(file: seq<byte>, scanned: nat, chunk: nat) returns (buf: seq<byte>)
    requires chunk >= 1 && scanned <= |file|
    ensures scanned + |buf| <= |file| && (buf == [] ==> scanned == |file|)
    ensures file[|file| - scanned - |buf|..] == buf + file[|file| - scanned..]
  {
    var take := if chunk <= |file| - scanned then chunk else |file| - scanned;
    var start := |file| - scanned - take;
    buf := file[start..start + take];
  }

  /** The head of the file is reached: the growing line is the first record. */
  method ReadHead<T>(c: Codec<T>, keep: T -> bool, file: seq<byte>, pending: seq<byte>, ghost done: seq<byte>,
                     matchedRev: seq<T>) returns (all: seq<T>)
    requires SkipsEmpty(c) && Scanned(file, pending, done) && matchedRev == Reverse(Rows(c, keep, done))
    ensures all == Reverse(Rows(c, keep, file))
  {
    all := matchedRev;
    RowsOfScanned(c, keep, file, pending, done);
    if pending != [] {
      var row := KeptLine(c, keep, pending);
      HoldRound(matchedRev, row, Rows(c, keep, done), row + Rows(c, keep, done));
      all := all + Reverse(row);
    } else {
      assert Trim([]) == [];
    }
  }

  /** The scan: backwards, a chunk at a time, until enough rows are held or the head is reached. */
  method ScanBack<T>(c: Codec<T>, file: seq<byte>, chunk: nat, limit: nat, keep: T -> bool)
    returns (matchedRev: seq<T>, scanned: nat, pending: seq<byte>, ghost done: seq<byte>)
    requires chunk >= 1 && SkipsEmpty(c)
    ensures scanned <= |file| && Scanned(file[|file| - scanned..], pending, done)
    ensures matchedRev == Reverse(Rows(c, keep, done))
    ensures scanned < |file| ==> limit <= |matchedRev|
  {
    hide Rows, Reverse, Scanned;
    scanned, pending, matchedRev, done := 0, [], [], [];
    RowsOfEmpty(c, keep);
    NothingScanned<T>(file);
    var whole := |file| == 0;
    while |matchedRev| < limit
      invariant 0 <= scanned <= |file|
      invariant Scanned(file[|file| - scanned..], pending, done)
      invariant matchedRev == Reverse(Rows(c, keep, done))
      invariant whole <==> scanned == |file|
      decreases |file| - scanned, !whole
    {
      var buf := ReadBack(file, scanned, chunk);
      ghost var newer := Rows(c, keep, done);
      var chunkMatched;
      chunkMatched, pending, done := ReadChunk(c, keep, buf, file[|file| - scanned..], pending, done);
      scanned := scanned + |buf|;
      whole := scanned == |file|;
      HoldRound(matchedRev, chunkMatched, newer, Rows(c, keep, done));
      matchedRev := matchedRev + Reverse(chunkMatched);
      if whole {
        break;
      }
    }
  }

  /** The newest `limit` kept records of a file, read backwards in chunks of any size. */
  method TailFiltered<T>(c: Codec<T>, file: seq<byte>, chunk: nat, limit: nat, keep: T -> bool)
    returns (rows: seq<T>, total: nat, whole: bool)
    requires chunk >= 1 && SkipsEmpty(c)
    ensures rows == Last(Rows(c, keep, file), limit)
    ensures var all := Rows(c, keep, file); rows == if |all| > limit then all[|all| - limit..] else all
    ensures whole ==> total == |Rows(c, keep, file)|
    ensures !whole ==> limit <= total <= |Rows(c, keep, file)|
  {
    hide Rows;
    var matchedRev, scanned, pending;
    ghost var done;
    matchedRev, scanned, pending, done := ScanBack(c, file, chunk, limit, keep);
    whole := scanned == |file|;
    ghost var held := Rows(c, keep, done);
    if whole {
      assert file[0..] == file;
      matchedRev := ReadHead(c, keep, file, pending, done, matchedRev);
      held := Rows(c, keep, file);
    } else {
      TailIsSuffix(c, keep, file, |file| - scanned, pending, done);
    }
    total := |matchedRev|;
    rows := NewestFirst(matchedRev, limit, held);
    WindowOfSuffix(Rows(c, keep, file), held, limit);
  }

  // ---------- the forward loader ----------

  lemma {:induction false} PiecesOfText(s: seq<byte>)
    ensures Utf8(s) <==> forall p :: p in Pieces(s) ==> Utf8(p)
    decreases |s|
  {
    if NL !in s {
      PiecesOfLine(s);
    } else {
      var i := FirstNewline(s);
      var a, b := s[..i], s[i + 1..];
      assert s == a + [NL] + b;
      PiecesSplit(a, b);
      PiecesOfLine(a);
      Utf8Split(a, b);
      PiecesOfText(b);
    }
  }

  ghost function FirstNewline(s: seq<byte>): (i: nat)
    requires NL in s
    ensures i < |s| && s[i] == NL && NL !in s[..i]
  {
    if s[0] == NL then 0 else assert s == [s[0]] + s[1..]; 1 + FirstNewline(s[1..])
  }

  /** One line of a text: blank and unparseable lines are skipped. */
  method LoadLine<T>(c: Codec<T>, text: seq<byte>, ghost piece: seq<byte>) returns (rows: seq<T>)
    requires SkipsEmpty(c) && Utf8(piece) && Trim(text) == Trim(piece)
    ensures rows == One(c, (_: T) => true, piece)
  {
    var line := Trim(text);
    rows := [];
    if line != [] {
      var v := c.parse(line);
      if v.Some? {
        rows := [v.value];
      }
    }
  }

  method Load<T>(c: Codec<T>, file: seq<byte>) returns (rows: seq<T>)
    requires SkipsEmpty(c)
    ensures rows == Loaded(c, file)
  {
    hide Utf8, RowsOf, One, Trim, TextLines, Pieces;
    rows := [];
    if !Utf8(file) {
      return;
    }
    PiecesOfText(file);
    NoRowsYet(c, (_: T) => true);
    ghost var pieces := Pieces(file);
    var lines := TextLines(file);
    UnendedLine(c, (_: T) => true, file);
    for i := 0 to |lines|
      invariant rows == RowsOf(c, (_: T) => true, pieces[..i])
    {
      LineOfPiece(file, i);
      assert pieces[i] in pieces;
      var row := LoadLine(c, lines[i], pieces[i]);
      OneMore(c, (_: T) => true, pieces, i);
      rows := rows + row;
    }
  }

  lemma NoRowsYet<T>(c: Codec<T>, keep: T -> bool)
    ensures RowsOf(c, keep, []) == []
  {
  }

  /** What follows the last newline, when it is no line of the text, is no record either. */
  lemma UnendedLine<T>(c: Codec<T>, keep: T -> bool, file: seq<byte>)
    requires SkipsEmpty(c)
    ensures |TextLines(file)| <= |Pieces(file)|
    ensures RowsOf(c, keep, Pieces(file)[..|TextLines(file)|]) == RowsOf(c, keep, Pieces(file))
  {
    var pieces, n := Pieces(file), |TextLines(file)|;
    if n < |pieces| {
      OneMore(c, keep, pieces, n);
      assert Trim([]) == [];
      assert pieces[..n + 1] == pieces;
    } else {
      assert pieces[..n] == pieces;
    }
  }

  /** A carriage return before the newline is trimmed either way. */
  lemma LineOfPiece(file: seq<byte>, i: nat)
    requires i < |TextLines(file)|
    ensures i < |Pieces(file)| && Trim(TextLines(file)[i]) == Trim(Pieces(file)[i])
  {
    var line, piece := TextLines(file)[i], Pieces(file)[i];
    if line != piece {
      assert piece == line + [CR];
    }
  }

  lemma OneMore<T>(c: Codec<T>, keep: T -> bool, pieces: seq<seq<byte>>, i: nat)
    requires i < |pieces|
    ensures RowsOf(c, keep, pieces[..i + 1]) == RowsOf(c, keep, pieces[..i]) + One(c, keep, pieces[i])
  {
    RowsOfAppend(c, keep, pieces[..i], [pieces[i]]);
    assert pieces[..i] + [pieces[i]] == pieces[..i + 1];
    assert RowsOf(c, keep, [pieces[i]][1..]) == [];
  }

  // ---------- reader against loader ----------

  lemma {:induction false} FilterAppend<T>(keep: T -> bool, a: seq<T>, b: seq<T>)
    ensures Filter(keep, a + b) == Filter(keep, a) + Filter(keep, b)
  {
    if a == [] {
      assert a + b == b;
    } else {
      assert (a + b)[1..] == a[1..] + b;
      FilterAppend(keep, a[1..], b);
    }
  }

  lemma {:induction false} RowsAreFiltered<T>(c: Codec<T>, keep: T -> bool, lines: seq<seq<byte>>)
    ensures RowsOf(c, keep, lines) == Filter(keep, RowsOf(c, (_: T) => true, lines))
  {
    if lines != [] {
      RowsAreFiltered(c, keep, lines[1..]);
      FilterAppend(keep, One(c, (_: T) => true, lines[0]), RowsOf(c, (_: T) => true, lines[1..]));
    }
  }

  /** The line is text and decodes to a record that is kept. */
  predicate Kept<T>(c: Codec<T>, keep: T -> bool, line: seq<byte>) {
    Decode(c, line).Some? && keep(Decode(c, line).value)
  }

  predicate NoneKept<T>(c: Codec<T>, keep: T -> bool, lines: seq<seq<byte>>) {
    forall i :: 0 <= i < |lines| ==> !Kept(c, keep, lines[i])
  }

  lemma {:induction false} NoRows<T>(c: Codec<T>, keep: T -> bool, lines: seq<seq<byte>>)
    ensures RowsOf(c, keep, lines) == [] <==> NoneKept(c, keep, lines)
    decreases |lines|
  {
    hide Decode;
    if lines != [] {
      NoRows(c, keep, lines[1..]);
      assert One(c, keep, lines[0]) == [] <==> !Kept(c, keep, lines[0]);
      assert lines == [lines[0]] + lines[1..];
    }
  }

  lemma AgreesUnlessRows<T>(c: Codec<T>, keep: T -> bool, file: seq<byte>, limit: nat)
    ensures Last(Rows(c, keep, file), limit) == Last(Filter(keep, Loaded(c, file)), limit)
            <==> Utf8(file) || limit == 0 || Rows(c, keep, file) == []
  {
    RowsAreFiltered(c, keep, Pieces(file));
  }

  /** The tail reader answers the newest kept records of the loader exactly when the file is
  text, nothing is asked for, or no line of the file holds a kept record: the loader drops a whole
  file for one stray byte, the tail reader only the line that carries it. */
  lemma TailAgreesWithLoader<T>(c: Codec<T>, keep: T -> bool, file: seq<byte>, limit: nat)
    ensures Last(Rows(c, keep, file), limit) == Last(Filter(keep, Loaded(c, file)), limit)
            <==> Utf8(file) || limit == 0 || NoneKept(c, keep, Pieces(file))
  {
    AgreesUnlessRows(c, keep, file, limit);
    NoRows(c, keep, Pieces(file));
  }

  /** One stray byte after a good record: the loader forgets the record, the tail reader does not. */
  lemma StrayByteSplitsReaders()
    ensures var c := Codec((l: seq<byte>) => if l == [] then None else Some(l), (l: seq<byte>) => l);
            var file: seq<byte> := [65, NL, 0xFF];
            SkipsEmpty(c) && Loaded(c, file) == [] && Last(Rows(c, (_: seq<byte>) => true, file), 1) == [[65]]
  {
    var c := Codec((l: seq<byte>) => if l == [] then None else Some(l), (l: seq<byte>) => l);
    var a: seq<byte>, b: seq<byte> := [65], [0xFF];
    var keep := (_: seq<byte>) => true;
    assert [65, NL, 0xFF] == a + [NL] + b;
    assert CharLen(b) == 0 && CharLen(a) == 1 && a[1..] == [];
    Utf8Split(a, b);
    RowsSplit(c, keep, a, b);
    RowsOfLine(c, keep, a);
    RowsOfLine(c, keep, b);
    assert TrimEnd(a) == a && TrimStart(a) == a;
  }

  // ---------- the writer ----------

  function Append<T>(c: Codec<T>, file: seq<byte>, v: T): seq<byte> {
    file + (c.render(v) + [NL])
  }

  /** Every record written so far is on a line of its own. */
  predicate Complete(file: seq<byte>) {
    file == [] || file[|file| - 1] == NL
  }

  /** The lines of a complete log end where its bytes end. */
  lemma CompleteSplit<T>(c: Codec<T>, keep: T -> bool, file: seq<byte>, more: seq<byte>)
    requires SkipsEmpty(c) && Complete(file)
    ensures Rows(c, keep, file + more) == Rows(c, keep, file) + Rows(c, keep, more)
  {
    RowsOfEmpty(c, keep);
    if file == [] {
      assert file + more == more;
    } else {
      var head := file[..|file| - 1];
      assert file == head + [NL] + [];
      assert file + more == head + [NL] + more;
      RowsSplit(c, keep, head, more);
      RowsSplit(c, keep, head, []);
    }
  }

  lemma CompleteTextSplit(file: seq<byte>, more: seq<byte>)
    requires Complete(file)
    ensures Utf8(file + more) <==> Utf8(file) && Utf8(more)
  {
    if file == [] {
      assert file + more == more;
    } else {
      var head := file[..|file| - 1];
      assert file == head + [NL] + [];
      assert file + more == head + [NL] + more;
      Utf8Split(head, more);
      Utf8Split(head, []);
    }
  }

  lemma RowsOfWrittenLine<T>(c: Codec<T>, keep: T -> bool, line: seq<byte>)
    requires SkipsEmpty(c) && NL !in line
    ensures Rows(c, keep, line + [NL]) == One(c, keep, line)
  {
    RowsOfLine(c, keep, line);
    RowsOfEmpty(c, keep);
    RowsSplit(c, keep, line, []);
    assert line + [NL] + [] == line + [NL];
  }

  lemma AppendedLine<T>(c: Codec<T>, keep: T -> bool, file: seq<byte>, line: seq<byte>)
    requires SkipsEmpty(c) && Complete(file) && NL !in line
    ensures Rows(c, keep, file + (line + [NL])) == Rows(c, keep, file) + One(c, keep, line)
  {
    RowsOfWrittenLine(c, keep, line);
    CompleteSplit(c, keep, file, line + [NL]);
  }

  /** Appending to a complete log adds exactly the record, at the end. */
  lemma AppendReadsBack<T>(c: Codec<T>, keep: T -> bool, file: seq<byte>, v: T)
    requires SkipsEmpty(c) && RoundTrips(c, v) && Complete(file)
    ensures Rows(c, keep, Append(c, file, v)) == Rows(c, keep, file) + (if keep(v) then [v] else [])
  {
    AppendedLine(c, keep, file, c.render(v));
  }

  lemma AppendStaysComplete<T>(c: Codec<T>, file: seq<byte>, v: T)
    requires RoundTrips(c, v) && Complete(file)
    ensures Complete(Append(c, file, v)) && (Utf8(Append(c, file, v)) <==> Utf8(file))
  {
    var line := c.render(v);
    Utf8Split(line, []);
    assert line + [NL] + [] == line + [NL];
    CompleteTextSplit(file, line + [NL]);
  }

  /** A torn last line fuses with the next record: only what the fused line decodes to is read. */
  lemma TornTailFuses<T>(c: Codec<T>, keep: T -> bool, file: seq<byte>, torn: seq<byte>, v: T)
    requires SkipsEmpty(c) && Complete(file) && NL !in torn && NL !in c.render(v)
    ensures Rows(c, keep, Append(c, file + torn, v)) == Rows(c, keep, file) + One(c, keep, torn + c.render(v))
  {
    AppendedLine(c, keep, file, torn + c.render(v));
    Regroup(file, torn, c.render(v), [NL]);
  }

  lemma Regroup(a: seq<byte>, b: seq<byte>, c: seq<byte>, d: seq<byte>)
    ensures (a + b) + (c + d) == a + ((b + c) + d)
  {
  }

  function Log<T>(c: Codec<T>, vs: seq<T>): seq<byte> {
    if vs == [] then [] else Append(c, Log(c, vs[..|vs| - 1]), vs[|vs| - 1])
  }

  lemma {:induction false} LogIsText<T>(c: Codec<T>, vs: seq<T>)
    requires forall v :: v in vs ==> RoundTrips(c, v)
    ensures Complete(Log(c, vs)) && Utf8(Log(c, vs))
  {
    if vs != [] {
      LogIsText(c, vs[..|vs| - 1]);
      AppendStaysComplete(c, Log(c, vs[..|vs| - 1]), vs[|vs| - 1]);
    }
  }

  /** A log of appends reads back as what was appended. */
  lemma {:induction false} LogReadsBack<T>(c: Codec<T>, keep: T -> bool, vs: seq<T>)
    requires SkipsEmpty(c) && forall v :: v in vs ==> RoundTrips(c, v)
    ensures Rows(c, keep, Log(c, vs)) == Filter(keep, vs)
  {
    if vs == [] {
      RowsOfEmpty(c, keep);
    } else {
      var init, v := vs[..|vs| - 1], vs[|vs| - 1];
      LogReadsBack(c, keep, init);
      LogIsText(c, init);
      AppendReadsBack(c, keep, Log(c, init), v);
      assert vs == init + [v];
      FilterAppend(keep, init, [v]);
      assert Filter(keep, [v][1..]) == [];
    }
  }

  lemma {:induction false} FilterAll<T>(s: seq<T>)
    ensures Filter((_: T) => true, s) == s
  {
    if s != [] {
      FilterAll(s[1..]);
    }
  }

  /** Write, then read either way: the loader answers every record, the tail reader the newest. */
  lemma WrittenLogThroughBothReaders<T>(c: Codec<T>, keep: T -> bool, vs: seq<T>, limit: nat)
    requires SkipsEmpty(c) && forall v :: v in vs ==> RoundTrips(c, v)
    ensures Loaded(c, Log(c, vs)) == vs
    ensures Last(Rows(c, keep, Log(c, vs)), limit) == Last(Filter(keep, vs), limit)
  {
    LogIsText(c, vs);
    LogReadsBack(c, keep, vs);
    LogReadsBack(c, (_: T) => true, vs);
    FilterAll(vs);
  }
}
