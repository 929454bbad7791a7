/** How `data_source.rs` names rotated archive segments, recognises them again and orders them, so
that the order of names is the order in which they were written, and no other file is taken for one. */
module ArchiveNames {
  import opened Wrappers
  import opened Stamps

  // ---------- building names ----------

  function SignedDec(n: int): string {
    if n < 0 then "-" + Dec(-n, 0) else Dec(n, 0)
  }

  /** The stamp in a segment's name, or the bare number when there is none. */
  function Base(atMs: int): string {
    match UtcStamp(atMs)
    case Some(stamp) => stamp
    case None => SignedDec(atMs)
  }

  /** The suffix that keeps a second rotation in one second apart. */
  function Suffix(n: nat): string {
    if n == 0 then "" else "-" + Dec(n, 4)
  }

  function Extension(ext: Option<string>): string {
    if ext.Some? && ext.value != "" then "." + ext.value else ""
  }

  function SegmentName(stem: string, ext: Option<string>, atMs: int, n: nat): string {
    stem + "." + (Base(atMs) + Suffix(n)) + Extension(ext)
  }

  const MAX_SUFFIX := 10000

  /** The suffixes tried: none, then 2 up to 9999. */
  predicate Tried(n: nat) {
    n == 0 || 2 <= n < MAX_SUFFIX
  }

  predicate NameTaken(taken: set<string>, stem: string, ext: Option<string>, atMs: int, n: nat) {
    SegmentName(stem, ext, atMs, n) in taken
  }

  /** The first free name is taken; only when all are taken is the bare one reused. */
  method NextSegmentPath(taken: set<string>, stem: string, ext: Option<string>, atMs: int) returns (name: string, n: nat)
    ensures Tried(n) && name == SegmentName(stem, ext, atMs, n)
    ensures forall k: nat :: Tried(k) && k < n ==> NameTaken(taken, stem, ext, atMs, k)
    ensures name in taken ==> n == 0 && forall k: nat :: Tried(k) ==> NameTaken(taken, stem, ext, atMs, k)
  {
    hide SegmentName;
    name, n := SegmentName(stem, ext, atMs, 0), 0;
    if name !in taken {
      return;
    }
    for k := 2 to MAX_SUFFIX
      invariant forall j: nat :: Tried(j) && j < k ==> NameTaken(taken, stem, ext, atMs, j)
    {
      var alt := SegmentName(stem, ext, atMs, k);
      if alt !in taken {
        return alt, k;
      }
    }
  }

  // ---------- reading names ----------

  function StripPrefix(s: string, prefix: string): Option<string> {
    if prefix <= s then Some(s[|prefix|..]) else None
  }

  function StripSuffix(s: string, suffix: string): Option<string> {
    if |suffix| <= |s| && s[|s| - |suffix|..] == suffix then Some(s[..|s| - |suffix|]) else None
  }

  /** The text around the last dash. */
  function SplitLastDash(s: string): Option<(string, string)> {
    if s == "" then None
    else if s[|s| - 1] == '-' then Some((s[..|s| - 1], ""))
    else
      match SplitLastDash(s[..|s| - 1])
      case None => None
      case Some((base, tail)) => Some((base, tail + [s[|s| - 1]]))
  }

  /** A trailing `-NNNN` taken off, with its number. */
  function SplitSequence(body: string): (string, nat) {
    match SplitLastDash(body)
    case None => (body, 0)
    case Some((base, tail)) =>
      if tail != "" && AllDigits(tail) then (base, if Value(tail) < 0x1_0000_0000 then Value(tail) else 0) else (body, 0)
  }

  predicate IsStamp(s: string) {
    |s| == 16 && s[8] == 'T' && s[15] == 'Z' && AllDigits(s[..8]) && AllDigits(s[9..15])
  }

  predicate IsRotatedSegment(stem: string, name: string) {
    match StripPrefix(name, stem + ".")
    case None => false
    case Some(rest) =>
      match StripSuffix(rest, ".jsonl")
      case None => false
      case Some(body) =>
        var base := SplitSequence(body).0;
        (base != "" && AllDigits(base)) || IsStamp(base)
  }

  /** Rotated segments first, by stamp and number; the live file last. */
  datatype Key = Key(group: nat, base: string, number: nat)

  predicate KeyLess(a: Key, b: Key) {
    a.group < b.group || (a.group == b.group && (Less(a.base, b.base) || (a.base == b.base && a.number < b.number)))
  }

  function SegmentSortKey(stem: string, name: string, live: string): Key {
    if name == live then Key(1, "", 0)
    else
      var rest := match StripPrefix(name, stem + ".") case Some(r) => r case None => name;
      var body := match StripSuffix(rest, ".jsonl") case Some(b) => b case None => name;
      var (base, number) := SplitSequence(body);
      Key(0, base, number)
  }

  // ---------- names read back ----------

  predicate NoDash(s: string) {
    forall i :: 0 <= i < |s| ==> s[i] != '-'
  }

  lemma {:induction false} SplitAtDash(base: string, tail: string)
    requires NoDash(tail)
    ensures SplitLastDash(base + "-" + tail) == Some((base, tail))
    decreases |tail|
  {
    var s := base + "-" + tail;
    if tail == "" {
      assert s[..|s| - 1] == base;
    } else {
      var init := tail[..|tail| - 1];
      assert s[..|s| - 1] == base + "-" + init;
      SplitAtDash(base, init);
      assert init + [tail[|tail| - 1]] == tail;
    }
  }

  lemma {:induction false} NoDashNoSplit(s: string)
    requires NoDash(s)
    ensures SplitLastDash(s) == None
    decreases |s|
  {
    if s != "" {
      NoDashNoSplit(s[..|s| - 1]);
    }
  }

  lemma StampHasNoDash(date: nat, clock: nat)
    ensures NoDash(TwoNumbers(date, clock))
  {
    hide Dec;
  }

  /** Taking the sequence off a generated body gives back its stamp and number. */
  lemma BodySplits(base: string, n: nat)
    requires NoDash(base) && Tried(n)
    ensures SplitSequence(base + Suffix(n)) == (base, n)
  {
    hide Dec, Value, SplitLastDash;
    if n == 0 {
      assert base + Suffix(n) == base;
      NoDashNoSplit(base);
    } else {
      var tail := Dec(n, 4);
      assert base + Suffix(n) == base + "-" + tail;
      SplitAtDash(base, tail);
      ValueOfDec(n, 4);
    }
  }

  lemma NameStrips(stem: string, atMs: int, n: nat)
    ensures var name := SegmentName(stem, Some("jsonl"), atMs, n);
            var body := Base(atMs) + Suffix(n);
            && StripPrefix(name, stem + ".") == Some(body + ".jsonl")
            && StripSuffix(body + ".jsonl", ".jsonl") == Some(body)
            && name != stem + ".jsonl"
  {
    hide Base, Suffix;
    var body := Base(atMs) + Suffix(n);
    assert Extension(Some("jsonl")) == ".jsonl";
    var name := SegmentName(stem, Some("jsonl"), atMs, n);
    assert name == (stem + ".") + (body + ".jsonl");
    assert |name| == |stem| + 1 + |body| + 6;
    BaseNotEmpty(atMs);
  }

  lemma BaseNotEmpty(atMs: int)
    ensures Base(atMs) != ""
  {
    hide Dec;
    if atMs > 0 {
      StampIsTwoNumbers(atMs);
    }
  }

  /** The stamps that keep their sixteen characters; zero is spelled `0`. */
  predicate Nameable(atMs: int) {
    atMs == 0 || (atMs > 0 && FourDigitYear(atMs))
  }

  lemma BaseShape(atMs: int)
    requires atMs >= 0
    ensures NoDash(Base(atMs))
    ensures (AllDigits(Base(atMs)) || IsStamp(Base(atMs))) <==> Nameable(atMs)
  {
    hide Dec, UtcStamp, FourDigitYear, DayNumber, ClockNumber;
    if atMs > 0 {
      StampIsTwoNumbers(atMs);
      NumberWidths(atMs);
      StampHasNoDash(DayNumber(atMs), ClockNumber(atMs));
      StampOrNot(DayNumber(atMs), ClockNumber(atMs));
    } else {
      assert UtcStamp(0) == None by { ZeroHasNoStamp(); }
    }
  }

  lemma ZeroHasNoStamp()
    ensures UtcStamp(0) == None
  {
  }

  lemma StampOrNot(date: nat, clock: nat)
    requires |Dec(clock, 6)| == 6
    ensures !AllDigits(TwoNumbers(date, clock))
    ensures IsStamp(TwoNumbers(date, clock)) <==> |Dec(date, 8)| == 8
  {
    hide Dec;
    var s, a := TwoNumbers(date, clock), Dec(date, 8);
    assert s[|a|] == 'T';
    if |a| == 8 {
      assert s[..8] == a && s[9..15] == Dec(clock, 6);
    }
  }

  /** A generated name is recognised exactly when its time is not negative and its year has four
  digits. */
  lemma NamesAreRecognised(stem: string, atMs: int, n: nat)
    requires Tried(n)
    ensures IsRotatedSegment(stem, SegmentName(stem, Some("jsonl"), atMs, n)) <==> Nameable(atMs)
  {
    hide Base, Suffix, SegmentName, Nameable, SplitSequence, IsStamp, AllDigits;
    NameStrips(stem, atMs, n);
    BaseNotEmpty(atMs);
    if atMs >= 0 {
      BaseShape(atMs);
      BodySplits(Base(atMs), n);
    } else {
      NegativeBody(atMs, n);
    }
  }

  lemma NegativeBody(atMs: int, n: nat)
    requires atMs < 0 && Tried(n)
    ensures var base := SplitSequence(Base(atMs) + Suffix(n)).0;
            !((base != "" && AllDigits(base)) || IsStamp(base)) && !Nameable(atMs)
  {
    hide Dec, SplitLastDash, Value;
    var digits := Dec(-atMs, 0);
    assert Base(atMs) == "-" + digits;
    if n == 0 {
      assert Base(atMs) + Suffix(n) == "" + "-" + digits;
      SplitAtDash("", digits);
    } else {
      var tail := Dec(n, 4);
      assert Base(atMs) + Suffix(n) == Base(atMs) + "-" + tail;
      SplitAtDash(Base(atMs), tail);
      assert Base(atMs)[0] == '-';
      assert !IsStamp(Base(atMs)) by {
        assert |Base(atMs)| == 16 ==> Base(atMs)[..8][0] == '-';
      }
    }
  }

  /** The sort key of a recognised generated name is its stamp and its number. */
  lemma NamesDecode(stem: string, atMs: int, n: nat)
    requires Tried(n) && atMs >= 0
    ensures SegmentSortKey(stem, SegmentName(stem, Some("jsonl"), atMs, n), stem + ".jsonl") == Key(0, Base(atMs), n)
  {
    hide Base, Suffix, SegmentName, SplitSequence;
    NameStrips(stem, atMs, n);
    BaseShape(atMs);
    BodySplits(Base(atMs), n);
  }

  /** A segment rotated in a later second, or later in the same second, sorts later; the live file
  sorts last. */
  lemma KeysFollowWrites(stem: string, a: int, n: nat, b: int, m: nat)
    requires 0 < a && 0 < b && FourDigitYear(a) && FourDigitYear(b) && Tried(n) && Tried(m)
    ensures var live := stem + ".jsonl";
            var p, q := SegmentName(stem, Some("jsonl"), a, n), SegmentName(stem, Some("jsonl"), b, m);
            && (KeyLess(SegmentSortKey(stem, p, live), SegmentSortKey(stem, q, live)) <==> Secs(a) < Secs(b) || (Secs(a) == Secs(b) && n < m))
            && KeyLess(SegmentSortKey(stem, p, live), SegmentSortKey(stem, live, live))
  {
    hide Base, SegmentName, UtcStamp, Less, FourDigitYear;
    NamesDecode(stem, a, n);
    NamesDecode(stem, b, m);
    NameStrips(stem, a, n);
    StampOrder(a, b);
    PositiveBase(a);
    PositiveBase(b);
  }

  lemma PositiveBase(a: int)
    requires a > 0
    ensures UtcStamp(a).Some? && Base(a) == UtcStamp(a).value
  {
    hide StampOf;
  }

  // ---------- exactly the writer's shape ----------

  lemma {:induction false} SplitIsSound(s: string)
    ensures SplitLastDash(s).None? ==> NoDash(s)
    ensures SplitLastDash(s).Some? ==> s == SplitLastDash(s).value.0 + "-" + SplitLastDash(s).value.1 && NoDash(SplitLastDash(s).value.1)
    decreases |s|
  {
    if s != "" {
      var init := s[..|s| - 1];
      assert s == init + [s[|s| - 1]];
      if s[|s| - 1] != '-' {
        SplitIsSound(init);
      }
    }
  }

  predicate IsTime(base: string) {
    (base != "" && AllDigits(base)) || IsStamp(base)
  }

  predicate IsSequence(tail: string) {
    tail == "" || (|tail| >= 2 && tail[0] == '-' && AllDigits(tail[1..]))
  }

  lemma TimeHasNoDash(base: string)
    requires IsTime(base)
    ensures NoDash(base)
  {
    if IsStamp(base) {
      forall i | 0 <= i < 16 ensures base[i] != '-' {
        assert i < 8 ==> base[i] == base[..8][i];
        assert 9 <= i < 15 ==> base[i] == base[9..15][i - 9];
      }
    }
  }

  /** The body of a name splits into a time and a sequence exactly when it is one after the other. */
  lemma BodyShape(body: string)
    ensures IsTime(SplitSequence(body).0) <==>
            exists base, tail :: IsTime(base) && IsSequence(tail) && body == base + tail
  {
    hide Value, SplitLastDash, IsTime;
    SplitIsSound(body);
    var base := SplitSequence(body).0;
    if IsTime(base) {
      var tail := body[|base|..];
      assert IsSequence(tail) && body == base + tail;
    }
    if exists b, t :: IsTime(b) && IsSequence(t) && body == b + t {
      var b, t :| IsTime(b) && IsSequence(t) && body == b + t;
      TimeHasNoDash(b);
      if t == "" {
        assert body == b;
        NoDashNoSplit(body);
      } else {
        var digits := t[1..];
        assert body == b + "-" + digits;
        SplitAtDash(b, digits);
      }
    }
  }

  lemma TimeMeans(base: string)
    ensures IsTime(base) <==> (base != "" && AllDigits(base)) || IsStamp(base)
  {
  }

  /** Stem and extension leave a body between them. */
  lemma FrameAround(stem: string, name: string, body: string)
    requires name == stem + "." + body + ".jsonl"
    ensures |name| >= |stem| + 7 && name[..|stem| + 1] == stem + "." && name[|stem| + 1..] == body + ".jsonl"
    ensures name[|stem| + 1..][..|name| - |stem| - 7] == body
  {
    assert name == (stem + ".") + (body + ".jsonl");
  }

  lemma FrameOf(stem: string, name: string) returns (body: string)
    requires IsRotatedSegment(stem, name)
    ensures name == stem + "." + body + ".jsonl" && IsTime(SplitSequence(body).0)
  {
    hide SplitSequence;
    var rest := name[|stem| + 1..];
    body := rest[..|rest| - 6];
    assert name == (stem + ".") + rest && rest == body + ".jsonl";
    TimeMeans(SplitSequence(body).0);
  }

  lemma FramedIsRotated(stem: string, name: string, body: string)
    requires name == stem + "." + body + ".jsonl" && IsTime(SplitSequence(body).0)
    ensures IsRotatedSegment(stem, name)
  {
    hide SplitSequence;
    FrameAround(stem, name, body);
    TimeMeans(SplitSequence(body).0);
  }

  /** A name is recognised exactly when it has the writer's shape: the stem, a stamp or a number, an
  optional sequence number, and the extension. */
  lemma RecognisedShape(stem: string, name: string)
    ensures IsRotatedSegment(stem, name) <==>
            exists base, tail :: IsTime(base) && IsSequence(tail) && name == stem + "." + (base + tail) + ".jsonl"
  {
    hide SplitSequence, IsTime, IsSequence, IsRotatedSegment;
    if IsRotatedSegment(stem, name) {
      var body := FrameOf(stem, name);
      BodyShape(body);
      var base, tail :| IsTime(base) && IsSequence(tail) && body == base + tail;
      assert name == stem + "." + (base + tail) + ".jsonl";
    }
    if exists b, t :: IsTime(b) && IsSequence(t) && name == stem + "." + (b + t) + ".jsonl" {
      var b, t :| IsTime(b) && IsSequence(t) && name == stem + "." + (b + t) + ".jsonl";
      BodyShape(b + t);
      FramedIsRotated(stem, name, b + t);
    }
  }
}
