/** The rotating event archive of `data_source.rs`: what recording keeps and where, renames failing
or not, and that the directory it leaves behind lists back, in order, exactly what was recorded. */
module EventArchive {
  import opened Wrappers
  import opened Stamps
  import opened ArchiveNames
  import S = SegmentSource

  /** What the system calls of one `record` do. */
  datatype Io = Io(encodes: bool, writes: bool, renames: bool, reopens: bool, claims: bool, roomy: bool)

  datatype Reason = Locked | Failed | Disk | Cap

  /** A rotated segment: the time and number in its name, and its events. */
  datatype Segment<E> = Segment(at: int, n: nat, events: seq<E>)

  function NameOf<E>(stem: string, s: Segment<E>): string {
    SegmentName(stem, Some("jsonl"), s.at, s.n)
  }

  function Live(stem: string): string {
    stem + ".jsonl"
  }

  // ---------- the directory ----------

  type Dir<E> = map<string, seq<E>>

  predicate Precedes<E>(a: Segment<E>, b: Segment<E>) {
    Secs(a.at) < Secs(b.at) || (Secs(a.at) == Secs(b.at) && a.n < b.n)
  }

  /** A segment that rotation produced: its name is decodable, its file holds its events, and every
  smaller number for its time was already taken. */
  ghost predicate Rotated<E>(stem: string, dir: Dir<E>, s: Segment<E>) {
    && s.at > 0 && FourDigitYear(s.at) && Tried(s.n)
    && NameOf(stem, s) in dir && dir[NameOf(stem, s)] == s.events
    && forall k: nat :: Tried(k) && k < s.n ==> NameTaken(dir.Keys, stem, Some("jsonl"), s.at, k)
  }

  ghost predicate IsSegment<E>(stem: string, closed: seq<Segment<E>>, name: string) {
    exists i :: 0 <= i < |closed| && NameOf(stem, closed[i]) == name
  }

  /** The live file, the rotated segments in write order, and files that are neither. */
  ghost predicate Kept<E>(stem: string, dir: Dir<E>, closed: seq<Segment<E>>, lastAt: int) {
    && Live(stem) in dir
    && (forall i :: 0 <= i < |closed| ==> Rotated(stem, dir, closed[i]) && closed[i].at <= lastAt)
    && (forall i, j :: 0 <= i < j < |closed| ==> Precedes(closed[i], closed[j]))
    && (forall name :: name in dir && IsRotatedSegment(stem, name) ==> IsSegment(stem, closed, name))
  }

  function Contents<E>(closed: seq<Segment<E>>): seq<E> {
    if closed == [] then [] else closed[0].events + Contents(closed[1..])
  }

  lemma {:induction false} ContentsMore<E>(closed: seq<Segment<E>>, s: Segment<E>)
    ensures Contents(closed + [s]) == Contents(closed) + s.events
    decreases |closed|
  {
    if closed == [] {
      assert closed + [s] == [s];
    } else {
      ContentsMore(closed[1..], s);
      assert (closed + [s])[1..] == closed[1..] + [s];
    }
  }

  lemma LiveNotRecognised(stem: string)
    ensures !IsRotatedSegment(stem, Live(stem))
  {
    assert Live(stem)[..|stem| + 1] == stem + ".";
    assert Live(stem)[|stem| + 1..] == "jsonl";
  }

  lemma LiveIsNoSegment(stem: string, at: int, n: nat)
    ensures SegmentName(stem, Some("jsonl"), at, n) != Live(stem)
  {
    hide SegmentName;
    NameStrips(stem, at, n);
  }

  /** Two names of one second and number are one name. */
  lemma SameSecondSameName(stem: string, a: int, b: int, n: nat)
    requires a > 0 && b > 0 && FourDigitYear(a) && FourDigitYear(b) && Secs(a) == Secs(b)
    ensures SegmentName(stem, Some("jsonl"), a, n) == SegmentName(stem, Some("jsonl"), b, n)
  {
    hide UtcStamp, FourDigitYear;
    StampOrder(a, b);
    PositiveBase(a);
    PositiveBase(b);
  }

  /** The directory after the live file was moved to a fresh name and reopened empty. */
  function Moved<E>(stem: string, dir: Dir<E>, name: string): Dir<E>
    requires Live(stem) in dir
  {
    dir[name := dir[Live(stem)]][Live(stem) := []]
  }

  /** A new segment comes after every earlier one. */
  lemma NewComesLast<E>(stem: string, dir: Dir<E>, closed: seq<Segment<E>>, lastAt: int, at: int, n: nat, i: nat)
    requires Kept(stem, dir, closed, lastAt) && lastAt <= at && at > 0 && FourDigitYear(at) && i < |closed|
    requires Tried(n) && SegmentName(stem, Some("jsonl"), at, n) !in dir
    ensures Secs(closed[i].at) < Secs(at) || (Secs(closed[i].at) == Secs(at) && closed[i].n < n)
  {
    hide SegmentName, FourDigitYear, IsRotatedSegment;
    var s := closed[i];
    assert Rotated(stem, dir, s);
    if Secs(s.at) == Secs(at) {
      SameSecondSameName(stem, s.at, at, n);
      assert !NameTaken(dir.Keys, stem, Some("jsonl"), s.at, n);
    } else {
      assert s.at <= at;
    }
  }

  lemma RotatedStays<E>(stem: string, dir: Dir<E>, s: Segment<E>, name: string)
    requires Rotated(stem, dir, s) && Live(stem) in dir && name !in dir
    ensures Rotated(stem, Moved(stem, dir, name), s)
  {
    hide SegmentName, FourDigitYear;
    LiveIsNoSegment(stem, s.at, s.n);
    assert forall k: nat :: NameTaken(dir.Keys, stem, Some("jsonl"), s.at, k) ==>
                              NameTaken(Moved(stem, dir, name).Keys, stem, Some("jsonl"), s.at, k);
  }

  /** Rotation to a free name keeps the directory in order and moves no event. */
  lemma RotationKeeps<E>(stem: string, dir: Dir<E>, closed: seq<Segment<E>>, lastAt: int, at: int, n: nat)
    requires Kept(stem, dir, closed, lastAt) && lastAt <= at && at > 0 && FourDigitYear(at)
    requires Tried(n) && SegmentName(stem, Some("jsonl"), at, n) !in dir
    requires forall k: nat :: Tried(k) && k < n ==> NameTaken(dir.Keys, stem, Some("jsonl"), at, k)
    ensures var s := Segment(at, n, dir[Live(stem)]);
            var dir' := Moved(stem, dir, NameOf(stem, s));
            Kept(stem, dir', closed + [s], at) && Contents(closed + [s]) + dir'[Live(stem)] == Contents(closed) + dir[Live(stem)]
  {
    hide SegmentName, FourDigitYear, IsRotatedSegment, Contents;
    var s := Segment(at, n, dir[Live(stem)]);
    var name := NameOf(stem, s);
    var dir' := Moved(stem, dir, name);
    LiveIsNoSegment(stem, at, n);
    ContentsMore(closed, s);
    forall i | 0 <= i < |closed| ensures Rotated(stem, dir', closed[i]) && Precedes(closed[i], s) {
      RotatedStays(stem, dir, closed[i], name);
      NewComesLast(stem, dir, closed, lastAt, at, n, i);
    }
    assert Rotated(stem, dir', s) by {
      assert forall k: nat :: NameTaken(dir.Keys, stem, Some("jsonl"), at, k) ==> NameTaken(dir'.Keys, stem, Some("jsonl"), at, k);
    }
    ListedAfter(stem, dir, closed, s);
  }

  lemma ListedAfter<E>(stem: string, dir: Dir<E>, closed: seq<Segment<E>>, s: Segment<E>)
    requires Live(stem) in dir
    requires forall name :: name in dir && IsRotatedSegment(stem, name) ==> IsSegment(stem, closed, name)
    ensures forall name :: name in Moved(stem, dir, NameOf(stem, s)) && IsRotatedSegment(stem, name) ==> IsSegment(stem, closed + [s], name)
  {
    hide SegmentName, IsRotatedSegment;
    var more := closed + [s];
    forall name | name in Moved(stem, dir, NameOf(stem, s)) && IsRotatedSegment(stem, name) ensures IsSegment(stem, more, name) {
      if name in dir {
        var i :| 0 <= i < |closed| && NameOf(stem, closed[i]) == name;
        assert more[i] == closed[i];
      } else {
        assert more[|closed|] == s;
      }
    }
  }

  // ---------- what the counters decide ----------

  /** The part of an archive that decides where the next event goes. */
  datatype Meter = Meter(parked: bool, segmentBytes: nat, bytes: nat, stopped: Option<Reason>)

  predicate Counts(m: Meter, io: Io) {
    m.stopped.None? && io.encodes && io.writes
  }

  /** The event fills the segment: a rotation is due. */
  predicate Fills(m: Meter, size: nat, rotateBytes: nat) {
    rotateBytes > 0 && m.segmentBytes + size + 1 >= rotateBytes
  }

  /** What a rotation stops the archive for; the first reason is the one that stays. */
  function RotationStops(io: Io): Option<Reason> {
    if io.renames && !io.reopens then Some(Failed)
    else if io.renames && !io.claims then Some(Locked)
    else if !io.roomy then Some(Disk)
    else None
  }

  /** One call of `record`, as far as it decides where later events go. */
  function Metered(m: Meter, size: nat, io: Io, maxBytes: nat, rotateBytes: nat): Meter {
    if m.stopped.Some? || !io.encodes then m
    else if !io.writes then m.(stopped := Some(Failed))
    else
      var bytes, due, done := m.bytes + size + 1, Fills(m, size, rotateBytes), io.renames && io.reopens && io.claims;
      Meter(if due then !done else m.parked,
            if due && done then 0 else m.segmentBytes + size + 1,
            bytes,
            if due && RotationStops(io).Some? then RotationStops(io)
            else if maxBytes > 0 && bytes >= maxBytes then Some(Cap)
            else None)
  }

  // ---------- the archive ----------

  class Archive<E> {
    const stem: string
    const size: E -> nat
    const time: E -> int
    const maxBytes: nat
    const rotateBytes: nat
    /** The archive's directory, each file as the events on its lines. */
    var dir: Dir<E>
    /** The handle is on the temporary sink, with what has been written to it. */
    var parked: bool
    var sink: seq<E>
    var bytes: nat
    var segmentBytes: nat
    var events: nat
    var dropped: nat
    var segments: nat
    var lastAt: int
    var stopped: Option<Reason>
    ghost var closed: seq<Segment<E>>
    /** The newest time recorded here, in this session or before it; `lastAt` knows this session only. */
    ghost var mark: int

    /** The directory is in order. */
    ghost predicate InOrder()
      reads this
    {
      Kept(stem, dir, closed, mark)
    }

    function Gauge(): Meter
      reads this
    {
      Meter(parked, segmentBytes, bytes, stopped)
    }

    /** Everything replay can find. */
    ghost function Recorded(): seq<E>
      requires Live(stem) in dir
      reads this
    {
      Contents(closed) + dir[Live(stem)]
    }

    /** Opening an archive appends to the live file.  Earlier segments, if any, are given by `before`,
    with the newest time recorded until then. */
    constructor (stem: string, size: E -> nat, time: E -> int, maxBytes: nat, rotateBytes: nat, dir0: Dir<E>, bytes0: nat, owned: bool,
                 ghost before: seq<Segment<E>>, ghost newest: int)
      ensures this.stem == stem && this.size == size && this.time == time && this.maxBytes == maxBytes && this.rotateBytes == rotateBytes
      ensures Gauge() == Meter(false, bytes0, bytes0, if owned then None else Some(Locked)) && sink == []
      ensures events == dropped == 0 && lastAt == 0 && !parked
      ensures dir == if Live(stem) in dir0 then dir0 else dir0[Live(stem) := []]
      ensures closed == before && mark == newest
      ensures InOrder() <==> Kept(stem, dir, before, newest)
      ensures before == [] && (forall name :: name in dir0 ==> !IsRotatedSegment(stem, name)) ==> InOrder()
    {
      this.stem, this.size, this.time, this.maxBytes, this.rotateBytes := stem, size, time, maxBytes, rotateBytes;
      dir := if Live(stem) in dir0 then dir0 else dir0[Live(stem) := []];
      parked, sink := false, [];
      bytes, segmentBytes, events, dropped, segments, lastAt := bytes0, bytes0, 0, 0, 0, 0;
      stopped := if owned then None else Some(Locked);
      closed, mark := before, newest;
      LiveNotRecognised(stem);
    }

    method Stop(reason: Reason)
      modifies this`stopped
      ensures stopped == if old(stopped).Some? then old(stopped) else Some(reason)
    {
      if stopped.None? {
        stopped := Some(reason);
      }
    }

    /** Park the handle, move the live file aside, reopen. */
    method Rotate(io: Io)
      requires Live(stem) in dir
      modifies this`dir, this`parked, this`segmentBytes, this`segments, this`stopped, this`closed
      ensures !io.renames ==> parked && dir == old(dir) && closed == old(closed) && stopped == old(stopped) && segmentBytes == old(segmentBytes)
      ensures io.renames && io.reopens ==> Live(stem) in dir
      ensures GrewBy(old(closed), closed, lastAt)
      ensures io.renames && io.reopens && io.claims ==>
                && !parked && stopped == old(stopped) && segmentBytes == 0
                && exists n :: Tried(n) && (SegmentName(stem, Some("jsonl"), lastAt, n) !in old(dir) || NoNameLeft(stem, old(dir), lastAt))
                               && (forall k: nat :: Tried(k) && k < n ==> NameTaken(old(dir.Keys), stem, Some("jsonl"), lastAt, k))
                               && MovedTo(stem, old(dir), dir, old(closed), closed, lastAt, n)
      ensures old(stopped).None? && io.renames ==> stopped == if !io.reopens then Some(Failed) else if !io.claims then Some(Locked) else None
      ensures parked == !(io.renames && io.reopens && io.claims) && segmentBytes == if parked then old(segmentBytes) else 0
    {
      hide SegmentName, UtcStamp;
      var name, n := NextSegmentPath(dir.Keys, stem, Some("jsonl"), lastAt);
      ghost var before := dir;
      parked := true;
      if !io.renames {
        return;
      }
      LiveIsNoSegment(stem, lastAt, n);
      var rest := dir - {Live(stem)};
      closed := closed + [Segment(lastAt, n, dir[Live(stem)])];
      dir := rest[name := dir[Live(stem)]];
      if !io.reopens {
        Stop(Failed);
        return;
      }
      dir := dir[Live(stem) := []];
      if !io.claims {
        Stop(Locked);
        return;
      }
      assert dir == Moved(stem, before, name);
      assert name in before ==> NoNameLeft(stem, before, lastAt);
      parked := false;
      segmentBytes := 0;
      segments := segments + 1;
    }

    /** Append one event to wherever the handle points. */
    method Write(ev: E)
      requires Live(stem) in dir
      modifies this`dir, this`sink, this`events, this`bytes, this`segmentBytes, this`lastAt, this`mark
      ensures dir == if parked then old(dir) else old(dir)[Live(stem) := old(dir)[Live(stem)] + [ev]]
      ensures sink == if parked then old(sink) + [ev] else old(sink)
      ensures events == old(events) + 1 && lastAt == mark == time(ev)
      ensures bytes == old(bytes) + size(ev) + 1 && segmentBytes == old(segmentBytes) + size(ev) + 1
      ensures old(InOrder()) && old(TimelyEvent(ev)) ==>
                InOrder() && CanRotate(dir) && Recorded() == old(Recorded()) + if old(parked) then [] else [ev]
    {
      hide FourDigitYear, Contents, Kept, NoNameLeft;
      ghost var orderly := InOrder() && TimelyEvent(ev);
      if parked {
        sink := sink + [ev];
      } else {
        dir := dir[Live(stem) := dir[Live(stem)] + [ev]];
      }
      events := events + 1;
      bytes, segmentBytes := bytes + size(ev) + 1, segmentBytes + size(ev) + 1;
      lastAt, mark := time(ev), time(ev);
      if orderly {
        if parked {
          LaterKeeps(stem, dir, closed, old(mark), time(ev));
        } else {
          AppendKeeps(stem, old(dir), closed, old(mark), ev, time(ev));
        }
      }
    }

    /** Every call is counted once, as an event or as a drop.  While reopens succeed, times do not
    decrease and a name is free, no rotated segment is touched, and a counted event joins what
    replay can find exactly when the handle is on the live file, and the sink otherwise. */
    method Record(ev: E, io: Io)
      requires stopped.None? ==> Live(stem) in dir
      modifies this
      ensures events + dropped == old(events) + old(dropped) + 1
      ensures dropped == old(dropped) + if old(stopped).Some? || !io.encodes || !io.writes then 1 else 0
      ensures stopped.None? ==> Live(stem) in dir
      ensures lastAt == if events > old(events) then time(ev) else old(lastAt)
      ensures mark == if events > old(events) then time(ev) else old(mark)
      ensures GrewBy(old(closed), closed, time(ev))
      ensures old(InOrder()) && io.reopens && io.claims && old(TimelyEvent(ev)) ==>
                InOrder() && Recorded() == old(Recorded()) + if events > old(events) && !old(parked) then [ev] else []
      ensures sink == old(sink) + if events > old(events) && old(parked) then [ev] else []
      ensures events == old(events) + if Counts(old(Gauge()), io) then 1 else 0
      ensures Gauge() == Metered(old(Gauge()), size(ev), io, maxBytes, rotateBytes)
      ensures old(stopped).Some? || !io.encodes ==> stopped == old(stopped)
      ensures old(stopped).None? && io.encodes && !io.writes ==> stopped == Some(Failed)
      ensures old(stopped).None? && io.encodes && io.writes && io.roomy && (io.renames ==> io.reopens && io.claims) ==>
                stopped == if maxBytes > 0 && old(bytes) + size(ev) + 1 >= maxBytes then Some(Cap) else None
      ensures parked == if Counts(old(Gauge()), io) && Fills(old(Gauge()), size(ev), rotateBytes) then !(io.renames && io.reopens && io.claims)
                        else old(parked)
    {
      if stopped.Some? {
        dropped := dropped + 1;
        return;
      }
      if !io.encodes {
        dropped := dropped + 1;
        return;
      }
      if !io.writes {
        dropped := dropped + 1;
        Stop(Failed);
        return;
      }
      RecordWritten(ev, io);
    }

    /** Time does not run backwards, the year has four digits, and some name is free. */
    ghost predicate TimelyEvent(ev: E)
      reads this
    {
      && mark <= time(ev) && time(ev) > 0 && FourDigitYear(time(ev))
      && !NoNameLeft(stem, dir, time(ev))
    }

    method RecordWritten(ev: E, io: Io)
      requires Live(stem) in dir && stopped.None?
      modifies this
      ensures events == old(events) + 1 && dropped == old(dropped)
      ensures stopped.None? ==> Live(stem) in dir
      ensures lastAt == mark == time(ev) && GrewBy(old(closed), closed, time(ev))
      ensures old(InOrder()) && io.reopens && io.claims && old(TimelyEvent(ev)) ==>
                InOrder() && Recorded() == old(Recorded()) + if old(parked) then [] else [ev]
      ensures sink == old(sink) + if old(parked) then [ev] else []
      ensures io.encodes && io.writes ==> Gauge() == Metered(old(Gauge()), size(ev), io, maxBytes, rotateBytes)
    {
      hide Contents, Kept, CanRotate, TimelyEvent, GrewBy;
      Write(ev);
      RotateIfFull(io);
      if stopped.Some? {
        return;
      }
      if maxBytes > 0 && bytes >= maxBytes {
        Stop(Cap);
      }
    }

    /** Rotation first, so that a long capture stays in chunks; the free space is judged there. */
    method RotateIfFull(io: Io)
      requires Live(stem) in dir && stopped.None? && lastAt == mark
      modifies this`dir, this`parked, this`segmentBytes, this`segments, this`stopped, this`closed
      ensures stopped.None? ==> Live(stem) in dir
      ensures GrewBy(old(closed), closed, lastAt)
      ensures old(InOrder()) && io.reopens && io.claims && CanRotate(old(dir)) ==> InOrder() && Recorded() == old(Recorded())
      ensures var due, done := rotateBytes > 0 && old(segmentBytes) >= rotateBytes, io.renames && io.reopens && io.claims;
              && parked == (if due then !done else old(parked))
              && segmentBytes == (if due && done then 0 else old(segmentBytes))
              && stopped == if due then RotationStops(io) else None
    {
      hide SegmentName, IsRotatedSegment, FourDigitYear, Contents;
      if rotateBytes > 0 && segmentBytes >= rotateBytes {
        ghost var orderly := InOrder() && CanRotate(dir);
        Rotate(io);
        if orderly && io.renames && io.reopens && io.claims {
          ghost var n :| Tried(n) && (SegmentName(stem, Some("jsonl"), lastAt, n) !in old(dir) || NoNameLeft(stem, old(dir), lastAt))
                         && (forall k: nat :: Tried(k) && k < n ==> NameTaken(old(dir.Keys), stem, Some("jsonl"), lastAt, k))
                         && MovedTo(stem, old(dir), dir, old(closed), closed, lastAt, n);
          RotationKeeps(stem, old(dir), old(closed), lastAt, lastAt, n);
        }
        if !io.roomy {
          Stop(Disk);
        }
      }
    }

    /** The time of the last event can be named, and some name for it is free. */
    ghost predicate CanRotate(dir: Dir<E>)
      reads this`lastAt
    {
      lastAt > 0 && FourDigitYear(lastAt) && !NoNameLeft(stem, dir, lastAt)
    }
  }

  /** At most one segment more, dated `at`. */
  ghost predicate GrewBy<E>(closed: seq<Segment<E>>, closed': seq<Segment<E>>, at: int) {
    closed' == closed || (|closed'| == |closed| + 1 && closed <= closed' && closed'[|closed|].at == at)
  }

  ghost predicate NoNameLeft<E>(stem: string, dir: Dir<E>, at: int) {
    forall k: nat :: Tried(k) ==> NameTaken(dir.Keys, stem, Some("jsonl"), at, k)
  }

  ghost predicate MovedTo<E>(stem: string, dir: Dir<E>, dir': Dir<E>,
                             closed: seq<Segment<E>>, closed': seq<Segment<E>>, at: int, n: nat) {
    && Live(stem) in dir && closed' == closed + [Segment(at, n, dir[Live(stem)])]
    && dir' == Moved(stem, dir, SegmentName(stem, Some("jsonl"), at, n))
  }

  lemma LaterKeeps<E>(stem: string, dir: Dir<E>, closed: seq<Segment<E>>, lastAt: int, at: int)
    requires Kept(stem, dir, closed, lastAt) && lastAt <= at
    ensures Kept(stem, dir, closed, at)
  {
    hide Rotated, IsRotatedSegment, FourDigitYear;
  }

  lemma AppendKeeps<E>(stem: string, dir: Dir<E>, closed: seq<Segment<E>>, lastAt: int, ev: E, at: int)
    requires Kept(stem, dir, closed, lastAt) && lastAt <= at
    ensures var dir' := dir[Live(stem) := dir[Live(stem)] + [ev]];
            Kept(stem, dir', closed, at) && (NoNameLeft(stem, dir', at) <==> NoNameLeft(stem, dir, at))
  {
    hide SegmentName, IsRotatedSegment, FourDigitYear;
    var dir' := dir[Live(stem) := dir[Live(stem)] + [ev]];
    assert dir'.Keys == dir.Keys;
    forall i | 0 <= i < |closed| ensures Rotated(stem, dir', closed[i]) {
      assert Rotated(stem, dir, closed[i]);
      LiveIsNoSegment(stem, closed[i].at, closed[i].n);
    }
  }

  // ---------- listing the directory ----------

  /** A listing replay accepts: the live file and the recognised names, each once, none before a
  name with a smaller key. */
  ghost predicate Listing<E>(stem: string, dir: Dir<E>, names: seq<string>) {
    && (forall name :: name in names <==> name in dir && (name == Live(stem) || IsRotatedSegment(stem, name)))
    && (forall i, j :: 0 <= i < j < |names| ==> names[i] != names[j])
    && (forall i, j :: 0 <= i < j < |names| ==> !KeyBefore(stem, names[j], names[i]))
  }

  predicate KeyBefore(stem: string, a: string, b: string) {
    KeyLess(SegmentSortKey(stem, a, Live(stem)), SegmentSortKey(stem, b, Live(stem)))
  }

  function WriteOrder<E>(stem: string, closed: seq<Segment<E>>): (names: seq<string>)
    ensures |names| == |closed| + 1 && names[|closed|] == Live(stem)
    ensures forall i :: 0 <= i < |closed| ==> names[i] == NameOf(stem, closed[i])
  {
    seq(|closed|, i requires 0 <= i < |closed| => NameOf(stem, closed[i])) + [Live(stem)]
  }

  ghost predicate KeysAscend(stem: string, names: seq<string>) {
    forall i, j :: 0 <= i < j < |names| ==> KeyBefore(stem, names[i], names[j])
  }

  lemma FirstIsLeast(stem: string, names: seq<string>, q: nat)
    requires KeysAscend(stem, names) && q < |names|
    ensures q == 0 || KeyBefore(stem, names[0], names[q])
  {
  }

  /** A strictly ascending sequence is the only sorted arrangement of its names. */
  lemma {:induction false} OneSortedOrder(stem: string, a: seq<string>, b: seq<string>)
    requires KeysAscend(stem, a) && (forall x :: x in a <==> x in b)
    requires forall i, j :: 0 <= i < j < |a| ==> a[i] != a[j]
    requires forall i, j :: 0 <= i < j < |b| ==> b[i] != b[j]
    requires forall i, j :: 0 <= i < j < |b| ==> !KeyBefore(stem, b[j], b[i])
    ensures a == b
    decreases |a|
  {
    hide KeyBefore;
    assert b == [] || b[0] in b;
    if a != [] {
      assert a[0] in a;
      var p :| 0 <= p < |b| && b[p] == a[0];
      var q :| 0 <= q < |a| && a[q] == b[0];
      FirstIsLeast(stem, a, q);
      assert p == 0;
      forall x ensures x in a[1..] <==> x in b[1..] {
        TailMembers(a, x);
        TailMembers(b, x);
      }
      OneSortedOrder(stem, a[1..], b[1..]);
      assert a == [a[0]] + a[1..] && b == [b[0]] + b[1..];
    }
  }

  lemma TailMembers(s: seq<string>, x: string)
    requires s != [] && forall i, j :: 0 <= i < j < |s| ==> s[i] != s[j]
    ensures x in s[1..] <==> x in s && x != s[0]
  {
    if x in s && x != s[0] {
      var i :| 0 <= i < |s| && s[i] == x;
      assert s[1..][i - 1] == x;
    }
  }

  // ---------- opening the directory ----------

  lemma {:induction false} LessTotal(a: string, b: string)
    ensures Less(a, b) || Less(b, a) || a == b
    decreases |a|
  {
    if a != "" && b != "" && a[0] == b[0] {
      LessTotal(a[1..], b[1..]);
      assert a == [a[0]] + a[1..] && b == [b[0]] + b[1..];
    }
  }

  lemma {:induction false} LessTransitive(a: string, b: string, c: string)
    requires Less(a, b) && Less(b, c)
    ensures Less(a, c)
    decreases |a|
  {
    if a != "" && a[0] == b[0] == c[0] {
      LessTransitive(a[1..], b[1..], c[1..]);
    }
  }

  lemma KeyOrder(a: Key, b: Key, c: Key)
    ensures KeyLess(a, b) ==> !KeyLess(b, a)
    ensures !KeyLess(b, a) && !KeyLess(c, b) ==> !KeyLess(c, a)
  {
    hide Less;
    LessTotal(a.base, b.base);
    LessTotal(b.base, c.base);
    LessTotal(a.base, c.base);
    NotLessItself(a.base);
    NotLessItself(b.base);
    if Less(a.base, b.base) {
      LessAsymmetric(a.base, b.base);
    }
    if Less(c.base, a.base) && Less(a.base, b.base) {
      LessTransitive(c.base, a.base, b.base);
    }
    if Less(b.base, c.base) && Less(c.base, a.base) {
      LessTransitive(b.base, c.base, a.base);
    }
  }

  /** No name after one with a greater key. */
  ghost predicate InKeyOrder(stem: string, names: seq<string>) {
    forall i, j :: 0 <= i < j < |names| ==> !KeyBefore(stem, names[j], names[i])
  }

  function Inserted(stem: string, names: seq<string>, name: string): seq<string> {
    if names == [] || KeyBefore(stem, name, names[0]) then [name] + names
    else [names[0]] + Inserted(stem, names[1..], name)
  }

  /** The sort by key; names of one key keep their order. */
  function SortedByKey(stem: string, names: seq<string>): seq<string> {
    if names == [] then [] else Inserted(stem, SortedByKey(stem, names[..|names| - 1]), names[|names| - 1])
  }

  lemma {:induction false} InsertedSorts(stem: string, names: seq<string>, name: string)
    requires InKeyOrder(stem, names)
    ensures InKeyOrder(stem, Inserted(stem, names, name))
    ensures multiset(Inserted(stem, names, name)) == multiset(names) + multiset{name}
    decreases |names|
  {
    hide SegmentSortKey, KeyLess;
    var all := Inserted(stem, names, name);
    if names == [] {
    } else if KeyBefore(stem, name, names[0]) {
      forall j | 0 <= j < |names| ensures !KeyBefore(stem, names[j], name) {
        KeyOrder(KeyOf(stem, name), KeyOf(stem, names[0]), KeyOf(stem, names[j]));
      }
    } else {
      InsertedSorts(stem, names[1..], name);
      assert names == [names[0]] + names[1..];
      forall x | x in all[1..] ensures !KeyBefore(stem, x, names[0]) {
        assert x in multiset(all[1..]);
        assert x in names[1..] || x == name;
      }
    }
  }

  function KeyOf(stem: string, name: string): Key {
    SegmentSortKey(stem, name, Live(stem))
  }

  lemma NothingToSort(stem: string)
    ensures InKeyOrder(stem, [])
  {
  }

  lemma {:induction false} SortedByKeySorts(stem: string, names: seq<string>)
    ensures InKeyOrder(stem, SortedByKey(stem, names)) && multiset(SortedByKey(stem, names)) == multiset(names)
    decreases |names|
  {
    hide InKeyOrder, Inserted;
    if names != [] {
      var init := names[..|names| - 1];
      SortedByKeySorts(stem, init);
      InsertedSorts(stem, SortedByKey(stem, init), names[|names| - 1]);
      assert names == init + [names[|names| - 1]];
    } else {
      NothingToSort(stem);
    }
  }

  predicate DistinctNames(names: seq<string>) {
    forall i, j :: 0 <= i < j < |names| ==> names[i] != names[j]
  }

  lemma {:induction false} DistinctOnce(names: seq<string>)
    ensures DistinctNames(names) <==> forall x :: multiset(names)[x] <= 1
    decreases |names|
  {
    if names != [] {
      var init, last := names[..|names| - 1], names[|names| - 1];
      DistinctOnce(init);
      assert names == init + [last];
      if DistinctNames(names) {
        assert last !in init;
      } else {
        var i, j :| 0 <= i < j < |names| && names[i] == names[j];
        if j == |names| - 1 {
          assert init[i] in multiset(init);
          assert multiset(names)[last] >= 2;
        } else {
          assert !DistinctNames(init) by { assert init[i] == init[j]; }
          var x :| multiset(init)[x] > 1;
          assert multiset(names)[x] > 1;
        }
      }
    }
  }

  predicate IsMine(stem: string, name: string) {
    name == Live(stem) || IsRotatedSegment(stem, name)
  }

  /** The archive's own files out of a directory's entries, however they are listed, in key order. */
  method OpenDir(stem: string, entries: seq<string>) returns (r: Result<seq<string>, ()>)
    requires DistinctNames(entries)
    ensures r.Err? <==> forall name :: name in entries ==> !IsMine(stem, name)
    ensures r.Ok? ==>
              && InKeyOrder(stem, r.value) && DistinctNames(r.value)
              && forall name :: name in r.value <==> name in entries && IsMine(stem, name)
  {
    hide IsMine, InKeyOrder;
    var names: seq<string> := [];
    for i := 0 to |entries|
      invariant DistinctNames(names)
      invariant forall name :: name in names <==> name in entries[..i] && IsMine(stem, name)
    {
      if IsMine(stem, entries[i]) {
        names := names + [entries[i]];
      }
    }
    assert entries[..|entries|] == entries;
    if names == [] {
      return Err(());
    }
    assert names[0] in names;
    var sorted := SortedByKey(stem, names);
    SortedByKeySorts(stem, names);
    DistinctOnce(names);
    DistinctOnce(sorted);
    forall x ensures x in sorted <==> x in names {
      assert x in multiset(sorted) <==> x in multiset(names);
    }
    return Ok(sorted);
  }

  lemma WriteOrderAscends<E>(stem: string, dir: Dir<E>, closed: seq<Segment<E>>, lastAt: int)
    requires Kept(stem, dir, closed, lastAt)
    ensures KeysAscend(stem, WriteOrder(stem, closed))
    ensures forall i, j :: 0 <= i < j <= |closed| ==> WriteOrder(stem, closed)[i] != WriteOrder(stem, closed)[j]
  {
    hide SegmentName, FourDigitYear, IsRotatedSegment, SegmentSortKey, KeyLess;
    var names := WriteOrder(stem, closed);
    forall i, j | 0 <= i < j < |names| ensures KeyBefore(stem, names[i], names[j]) && names[i] != names[j] {
      var s := closed[i];
      assert Rotated(stem, dir, s);
      if j < |closed| {
        assert Rotated(stem, dir, closed[j]) && Precedes(s, closed[j]);
        KeysFollowWrites(stem, s.at, s.n, closed[j].at, closed[j].n);
        KeyIrreflexive(stem, names[i]);
      } else {
        KeysFollowWrites(stem, s.at, s.n, s.at, s.n);
        LiveIsNoSegment(stem, s.at, s.n);
      }
    }
  }

  lemma KeyIrreflexive(stem: string, name: string)
    ensures !KeyBefore(stem, name, name)
  {
    hide SegmentSortKey;
    NotLessItself(SegmentSortKey(stem, name, Live(stem)).base);
  }

  lemma WriteOrderMembers<E>(stem: string, dir: Dir<E>, closed: seq<Segment<E>>, lastAt: int)
    requires Kept(stem, dir, closed, lastAt)
    ensures forall name :: name in WriteOrder(stem, closed) <==> name in dir && (name == Live(stem) || IsRotatedSegment(stem, name))
  {
    hide SegmentName, IsRotatedSegment, FourDigitYear;
    var names := WriteOrder(stem, closed);
    forall i | 0 <= i < |closed| ensures names[i] in dir && IsRotatedSegment(stem, names[i]) {
      assert Rotated(stem, dir, closed[i]);
      RecognisedSegment(stem, closed[i].at, closed[i].n);
    }
    forall name | name in dir && (name == Live(stem) || IsRotatedSegment(stem, name)) ensures name in names {
      if name == Live(stem) {
        assert names[|closed|] == name;
      } else {
        var i :| 0 <= i < |closed| && NameOf(stem, closed[i]) == name;
        assert names[i] == name;
      }
    }
  }

  lemma RecognisedSegment(stem: string, at: int, n: nat)
    requires at > 0 && FourDigitYear(at) && Tried(n)
    ensures IsRotatedSegment(stem, SegmentName(stem, Some("jsonl"), at, n))
  {
    hide SegmentName, IsRotatedSegment, FourDigitYear;
    NamesAreRecognised(stem, at, n);
  }

  function Replayed<E>(dir: Dir<E>, names: seq<string>): seq<E>
    requires forall i :: 0 <= i < |names| ==> names[i] in dir
  {
    if names == [] then [] else dir[names[0]] + Replayed(dir, names[1..])
  }

  lemma {:induction false} ReplayedIsContents<E>(stem: string, dir: Dir<E>, closed: seq<Segment<E>>)
    requires Live(stem) in dir && forall i :: 0 <= i < |closed| ==> NameOf(stem, closed[i]) in dir && dir[NameOf(stem, closed[i])] == closed[i].events
    ensures forall i :: 0 <= i <= |closed| ==> WriteOrder(stem, closed)[i] in dir
    ensures Replayed(dir, WriteOrder(stem, closed)) == Contents(closed) + dir[Live(stem)]
    decreases |closed|
  {
    hide SegmentName;
    var names := WriteOrder(stem, closed);
    if closed == [] {
      assert names[1..] == [];
      assert Replayed(dir, names) == dir[names[0]] + [];
    } else {
      ReplayedIsContents(stem, dir, closed[1..]);
      assert names[1..] == WriteOrder(stem, closed[1..]);
      assert closed[0].events + (Contents(closed[1..]) + dir[Live(stem)]) == Contents(closed) + dir[Live(stem)];
    }
  }

  /** However the directory is listed and sorted, replay opens the segments in write order and reads
  back exactly what was recorded. */
  lemma ReplayIsTheRecording<E>(stem: string, dir: Dir<E>, closed: seq<Segment<E>>, lastAt: int, names: seq<string>)
    requires Kept(stem, dir, closed, lastAt) && Listing(stem, dir, names)
    ensures names == WriteOrder(stem, closed)
    ensures (forall i :: 0 <= i < |names| ==> names[i] in dir) && Replayed(dir, names) == Contents(closed) + dir[Live(stem)]
  {
    hide SegmentName, IsRotatedSegment, KeyBefore, FourDigitYear;
    WriteOrderAscends(stem, dir, closed, lastAt);
    WriteOrderMembers(stem, dir, closed, lastAt);
    OneSortedOrder(stem, WriteOrder(stem, closed), names);
    assert forall i :: 0 <= i < |closed| ==> Rotated(stem, dir, closed[i]);
    ReplayedIsContents(stem, dir, closed);
  }

  // ---------- free names ----------

  /** The numbers rotation has used in one second. */
  function Numbers<E>(closed: seq<Segment<E>>, sec: int): set<nat> {
    if closed == [] then {}
    else (if Secs(closed[0].at) == sec then {closed[0].n} else {}) + Numbers(closed[1..], sec)
  }

  function InSecond<E>(closed: seq<Segment<E>>, sec: int): nat {
    if closed == [] then 0
    else (if Secs(closed[0].at) == sec then 1 else 0) + InSecond(closed[1..], sec)
  }

  lemma {:induction false} NumbersCount<E>(closed: seq<Segment<E>>, sec: int)
    ensures |Numbers(closed, sec)| <= InSecond(closed, sec)
  {
    if closed != [] {
      NumbersCount(closed[1..], sec);
    }
  }

  lemma {:induction false} InNumbers<E>(closed: seq<Segment<E>>, i: nat)
    requires i < |closed|
    ensures closed[i].n in Numbers(closed, Secs(closed[i].at))
    decreases |closed|
  {
    if i > 0 {
      InNumbers(closed[1..], i - 1);
    }
  }

  lemma {:induction false} InSecondMore<E>(closed: seq<Segment<E>>, s: Segment<E>, sec: int)
    ensures InSecond(closed + [s], sec) == InSecond(closed, sec) + if Secs(s.at) == sec then 1 else 0
    decreases |closed|
  {
    if closed == [] {
      assert closed + [s] == [s];
    } else {
      InSecondMore(closed[1..], s, sec);
      assert (closed + [s])[1..] == closed[1..] + [s];
    }
  }

  /** A taken name of the archive's own shape was taken by a rotation in the same second. */
  lemma TakenByRotation<E>(stem: string, dir: Dir<E>, closed: seq<Segment<E>>, lastAt: int, at: int, k: nat)
    requires Kept(stem, dir, closed, lastAt) && at > 0 && FourDigitYear(at) && Tried(k)
    requires NameTaken(dir.Keys, stem, Some("jsonl"), at, k)
    ensures k in Numbers(closed, Secs(at))
  {
    hide SegmentName, IsRotatedSegment, FourDigitYear, SegmentSortKey, Base;
    RecognisedSegment(stem, at, k);
    var i :| 0 <= i < |closed| && NameOf(stem, closed[i]) == SegmentName(stem, Some("jsonl"), at, k);
    assert Rotated(stem, dir, closed[i]);
    NamesDecode(stem, at, k);
    NamesDecode(stem, closed[i].at, closed[i].n);
    PositiveBase(at);
    PositiveBase(closed[i].at);
    StampOrder(at, closed[i].at);
    InNumbers(closed, i);
  }

  /** The numbers tried below a bound. */
  function TriedUpTo(k: nat): set<nat>
    requires k >= 2
  {
    if k == 2 then {0} else {k - 1} + TriedUpTo(k - 1)
  }

  lemma {:induction false} TriedCount(k: nat)
    requires 2 <= k <= MAX_SUFFIX
    ensures |TriedUpTo(k)| == k - 1
    ensures forall n: nat :: n in TriedUpTo(k) <==> Tried(n) && n < k
  {
    if k > 2 {
      TriedCount(k - 1);
      assert k - 1 !in TriedUpTo(k - 1);
    }
  }

  lemma SubsetSize(a: set<nat>, b: set<nat>)
    requires a <= b
    ensures |a| <= |b|
  {
    assert |b| == |a| + |b - a| by { assert a + (b - a) == b; }
  }

  /** Fewer than 9999 rotations in a second leave it a name. */
  lemma NamesLeft<E>(stem: string, dir: Dir<E>, closed: seq<Segment<E>>, lastAt: int, at: int)
    requires Kept(stem, dir, closed, lastAt) && at > 0 && FourDigitYear(at) && InSecond(closed, Secs(at)) < MAX_SUFFIX - 1
    ensures !NoNameLeft(stem, dir, at)
  {
    hide SegmentName, IsRotatedSegment, FourDigitYear, Kept, NameTaken;
    if NoNameLeft(stem, dir, at) {
      TriedCount(MAX_SUFFIX);
      forall k | k in TriedUpTo(MAX_SUFFIX) ensures k in Numbers(closed, Secs(at)) {
        assert NameTaken(dir.Keys, stem, Some("jsonl"), at, k);
        TakenByRotation(stem, dir, closed, lastAt, at, k);
      }
      SubsetSize(TriedUpTo(MAX_SUFFIX), Numbers(closed, Secs(at)));
      NumbersCount(closed, Secs(at));
      assert false;
    }
  }

  // ---------- whole recordings ----------

  function EventsInSecond<E>(time: E -> int, evs: seq<E>, sec: int): nat {
    if evs == [] then 0
    else EventsInSecond(time, evs[..|evs| - 1], sec) + if Secs(time(evs[|evs| - 1])) == sec then 1 else 0
  }

  /** Times are positive, with four-digit years, and never run backwards. */
  ghost predicate Timely<E>(time: E -> int, lastAt: int, evs: seq<E>) {
    && (forall i :: 0 <= i < |evs| ==> lastAt <= time(evs[i]) && time(evs[i]) > 0 && FourDigitYear(time(evs[i])))
    && (forall i, j :: 0 <= i < j < |evs| ==> time(evs[i]) <= time(evs[j]))
  }

  /** No second can run out of names. */
  ghost predicate Roomy<E>(time: E -> int, closed: seq<Segment<E>>, evs: seq<E>) {
    forall sec :: InSecond(closed, sec) + EventsInSecond(time, evs, sec) < MAX_SUFFIX - 1
  }

  ghost predicate Reliable(ios: seq<Io>) {
    forall i :: 0 <= i < |ios| ==> ios[i].reopens && ios[i].claims
  }

  ghost predicate UsedSoFar<E>(time: E -> int, closed0: seq<Segment<E>>, closed: seq<Segment<E>>, evs: seq<E>) {
    forall sec :: InSecond(closed, sec) <= InSecond(closed0, sec) + EventsInSecond(time, evs, sec)
  }

  lemma UsedOneMore<E>(time: E -> int, closed0: seq<Segment<E>>, closed: seq<Segment<E>>,
                       closed': seq<Segment<E>>, evs: seq<E>, i: nat)
    requires i < |evs| && UsedSoFar(time, closed0, closed, evs[..i]) && GrewBy(closed, closed', time(evs[i]))
    ensures UsedSoFar(time, closed0, closed', evs[..i + 1])
  {
    assert evs[..i + 1][..i] == evs[..i];
    forall sec ensures InSecond(closed', sec) <= InSecond(closed0, sec) + EventsInSecond(time, evs[..i + 1], sec) {
      assert InSecond(closed, sec) <= InSecond(closed0, sec) + EventsInSecond(time, evs[..i], sec);
      if closed' != closed {
        InSecondMore(closed, closed'[|closed|], sec);
        assert closed + [closed'[|closed|]] == closed';
      }
    }
  }

  lemma {:induction false} FewerInPrefix<E>(time: E -> int, evs: seq<E>, i: nat, sec: int)
    requires i <= |evs|
    ensures EventsInSecond(time, evs[..i], sec) <= EventsInSecond(time, evs, sec)
    decreases |evs|
  {
    if i == |evs| {
      assert evs[..i] == evs;
    } else {
      FewerInPrefix(time, evs[..|evs| - 1], i, sec);
      assert evs[..|evs| - 1][..i] == evs[..i];
    }
  }

  lemma RoomInSecond<E>(time: E -> int, closed0: seq<Segment<E>>, closed: seq<Segment<E>>, evs: seq<E>, i: nat)
    requires Roomy(time, closed0, evs) && i < |evs| && UsedSoFar(time, closed0, closed, evs[..i])
    ensures InSecond(closed, Secs(time(evs[i]))) < MAX_SUFFIX - 1
  {
    var sec := Secs(time(evs[i]));
    FewerInPrefix(time, evs, i, sec);
    assert InSecond(closed, sec) <= InSecond(closed0, sec) + EventsInSecond(time, evs[..i], sec);
    assert InSecond(closed0, sec) + EventsInSecond(time, evs, sec) < MAX_SUFFIX - 1;
  }

  ghost predicate AllRename(ios: seq<Io>) {
    forall i :: 0 <= i < |ios| ==> ios[i].renames
  }

  /** Every event is in one of two places; and in the first when the second is empty. */
  ghost predicate Split<E>(kept: seq<E>, lost: seq<E>, evs: seq<E>) {
    multiset(kept) + multiset(lost) == multiset(evs) && (lost == [] ==> kept == evs)
  }

  function WithEvent<E>(kept: seq<E>, ev: E, here: bool): seq<E> {
    if here then kept + [ev] else kept
  }

  lemma KeptOrLost<E>(found: seq<E>, sink: seq<E>, kept: seq<E>, lost: seq<E>, ev: E, counted: bool, parked: bool)
    ensures |WithEvent(kept, ev, counted && !parked)| + |WithEvent(lost, ev, counted && parked)| == |kept| + |lost| + if counted then 1 else 0
    ensures found + WithEvent(kept, ev, counted && !parked) == (found + kept) + if counted && !parked then [ev] else []
    ensures sink + WithEvent(lost, ev, counted && parked) == (sink + lost) + if counted && parked then [ev] else []
    ensures !(counted && parked) ==> WithEvent(lost, ev, counted && parked) == lost
  {
  }

  // ---------- where the events of a recording go ----------

  /** A recording: where it starts, the events, and what the system calls of each do. */
  datatype Session<!E> = Session(start: Meter, size: E -> nat, evs: seq<E>, ios: seq<Io>, maxBytes: nat, rotateBytes: nat)

  predicate Matched<E>(s: Session<E>) {
    |s.evs| == |s.ios|
  }

  function MeterAt<E>(s: Session<E>, n: nat): Meter
    requires Matched(s) && n <= |s.evs|
  {
    if n == 0 then s.start else Metered(MeterAt(s, n - 1), s.size(s.evs[n - 1]), s.ios[n - 1], s.maxBytes, s.rotateBytes)
  }

  predicate Counted<E>(s: Session<E>, i: nat)
    requires Matched(s) && i < |s.evs|
  {
    Counts(MeterAt(s, i), s.ios[i])
  }

  /** Event `i` is counted and makes a rotation due. */
  predicate Due<E>(s: Session<E>, i: nat)
    requires Matched(s) && i < |s.evs|
  {
    Counted(s, i) && Fills(MeterAt(s, i), s.size(s.evs[i]), s.rotateBytes)
  }

  /** The counted events of the first `n` that were written while the handle was on the sink. */
  function LostOf<E>(s: Session<E>, n: nat): seq<E>
    requires Matched(s) && n <= |s.evs|
  {
    if n == 0 then []
    else WithEvent(LostOf(s, n - 1), s.evs[n - 1], Counted(s, n - 1) && MeterAt(s, n - 1).parked)
  }

  function KeptOf<E>(s: Session<E>, n: nat): seq<E>
    requires Matched(s) && n <= |s.evs|
  {
    if n == 0 then []
    else WithEvent(KeptOf(s, n - 1), s.evs[n - 1], Counted(s, n - 1) && !MeterAt(s, n - 1).parked)
  }

  predicate RenameFails<E>(s: Session<E>, i: nat)
    requires Matched(s) && i < |s.evs|
  {
    Due(s, i) && !s.ios[i].renames
  }

  predicate Renamed<E>(s: Session<E>, i: nat)
    requires Matched(s) && i < |s.evs|
  {
    Due(s, i) && s.ios[i].renames
  }

  /** The rename of `i` failed, and none has succeeded before `j`. */
  predicate Hangs<E>(s: Session<E>, i: nat, j: nat)
    requires Matched(s) && j <= |s.evs|
  {
    i < j && RenameFails(s, i) && forall k :: i < k < j ==> !Renamed(s, k)
  }

  predicate NeverRenamed<E>(s: Session<E>, j: nat)
    requires Matched(s) && j <= |s.evs|
  {
    forall k :: 0 <= k < j ==> !Renamed(s, k)
  }

  /** The handle is on the sink exactly after a failed rename, or from the start, with none that
  succeeded since. */
  ghost predicate OnSink<E>(s: Session<E>, j: nat)
    requires Matched(s) && j <= |s.evs|
  {
    (exists i: nat :: Hangs(s, i, j)) || (s.start.parked && NeverRenamed(s, j))
  }

  lemma HangsBack<E>(s: Session<E>, i: nat, j: nat)
    requires Matched(s) && j < |s.evs| && i < j && Hangs(s, i, j + 1)
    ensures Hangs(s, i, j) && !Renamed(s, j)
  {
    hide RenameFails, Renamed;
  }

  lemma HangsOn<E>(s: Session<E>, i: nat, j: nat)
    requires Matched(s) && j < |s.evs| && Hangs(s, i, j) && !Renamed(s, j)
    ensures Hangs(s, i, j + 1)
  {
    hide RenameFails, Renamed;
  }

  lemma OnSinkNext<E>(s: Session<E>, j: nat)
    requires Matched(s) && j < |s.evs|
    ensures OnSink(s, j + 1) <==> RenameFails(s, j) || (OnSink(s, j) && !Renamed(s, j))
  {
    hide Due;
    if RenameFails(s, j) {
      assert Hangs(s, j, j + 1);
    } else {
      var n := j + 1;
      if i: nat :| Hangs(s, i, n) {
        HangsBack(s, i, j);
      }
      if i: nat :| Hangs(s, i, j) && !Renamed(s, j) {
        HangsOn(s, i, j);
      }
    }
  }

  lemma {:induction false} ParkedIffOnSink<E>(s: Session<E>, j: nat)
    requires Matched(s) && j <= |s.evs| && MeterAt(s, j).stopped.None?
    ensures MeterAt(s, j).parked <==> OnSink(s, j)
    decreases j
  {
    if j > 0 {
      ParkedIffOnSink(s, j - 1);
      OnSinkNext(s, j - 1);
    }
  }

  /** A recording loses nothing exactly when no event is counted while the handle is on the sink. */
  ghost predicate NothingHangs<E>(s: Session<E>, n: nat)
    requires Matched(s) && n <= |s.evs|
  {
    forall j :: 0 <= j < n && Counted(s, j) ==> !OnSink(s, j)
  }

  lemma {:induction false} LostIffHangs<E>(s: Session<E>, n: nat)
    requires Matched(s) && n <= |s.evs|
    ensures LostOf(s, n) == [] <==> NothingHangs(s, n)
    decreases n
  {
    hide OnSink, Metered;
    if n > 0 {
      LostIffHangs(s, n - 1);
      if Counted(s, n - 1) {
        ParkedIffOnSink(s, n - 1);
      }
    }
  }

  /** While the handle is on the sink every counted event makes a rotation due again. */
  lemma {:induction false} ParkedRetries<E>(s: Session<E>, j: nat)
    requires Matched(s) && j <= |s.evs| && !s.start.parked && MeterAt(s, j).parked
    ensures s.rotateBytes > 0 && MeterAt(s, j).segmentBytes >= s.rotateBytes
    decreases j
  {
    if MeterAt(s, j - 1).parked {
      ParkedRetries(s, j - 1);
    }
  }

  /** No event is counted after a due rotation whose rename failed. */
  ghost predicate NothingAfterFailure<E>(s: Session<E>, n: nat)
    requires Matched(s) && n <= |s.evs|
  {
    forall i, j :: 0 <= i < j < n && RenameFails(s, i) ==> !Counted(s, j)
  }

  lemma {:induction false} FirstCounted<E>(s: Session<E>, i: nat, j: nat) returns (k: nat)
    requires Matched(s) && i < j < |s.evs| && Counted(s, j)
    ensures i < k <= j && Counted(s, k) && forall m :: i < m < k ==> !Counted(s, m)
    decreases j
  {
    hide Counts, MeterAt;
    if m :| i < m < j && Counted(s, m) {
      k := FirstCounted(s, i, m);
    } else {
      k := j;
    }
  }

  /** From a handle on the live file, a recording loses an event exactly when some event is counted
  after a due rotation whose rename failed: the very next one is lost, whatever is renamed later. */
  lemma LostIffCountedAfterFailure<E>(s: Session<E>, n: nat)
    requires Matched(s) && n <= |s.evs| && !s.start.parked
    ensures LostOf(s, n) == [] <==> NothingAfterFailure(s, n)
  {
    hide MeterAt, Counts, LostOf;
    LostIffHangs(s, n);
    if i, j :| 0 <= i < j < n && RenameFails(s, i) && Counted(s, j) {
      var k := FirstCounted(s, i, j);
      assert Hangs(s, i, k);
      assert OnSink(s, k);
    }
    if j :| 0 <= j < n && Counted(s, j) && OnSink(s, j) {
      var i: nat :| Hangs(s, i, j);
    }
  }

  lemma ReliableAt(ios: seq<Io>, i: nat)
    requires i < |ios|
    ensures Reliable(ios) ==> ios[i].reopens && ios[i].claims
  {
  }

  /** Where every rename succeeds nothing is lost. */
  lemma AllRenamedKeepsAll<E>(s: Session<E>)
    requires Matched(s) && !s.start.parked && AllRename(s.ios)
    ensures LostOf(s, |s.evs|) == []
  {
    hide Due, LostOf, Counted;
    LostIffCountedAfterFailure(s, |s.evs|);
  }

  /** The next event can be recorded in order, and leaves time running forward for the rest. */
  lemma ReadyFor<E>(archive: Archive<E>, closed0: seq<Segment<E>>, evs: seq<E>, ios: seq<Io>, i: nat)
    requires i < |evs| == |ios| && archive.InOrder() && Timely(archive.time, archive.mark, evs[i..])
    requires Roomy(archive.time, closed0, evs) && UsedSoFar(archive.time, closed0, archive.closed, evs[..i])
    ensures archive.TimelyEvent(evs[i])
    ensures Timely(archive.time, archive.mark, evs[i + 1..]) && Timely(archive.time, archive.time(evs[i]), evs[i + 1..])
  {
    hide Kept, FourDigitYear, NoNameLeft, InSecond, EventsInSecond;
    var rest := evs[i..];
    assert rest[0] == evs[i] && rest[1..] == evs[i + 1..];
    RoomInSecond(archive.time, closed0, archive.closed, evs, i);
    NamesLeft(archive.stem, archive.dir, archive.closed, archive.mark, archive.time(evs[i]));
    assert forall j :: 0 <= j < |rest| - 1 ==> rest[1..][j] == rest[j + 1];
  }

  lemma NothingMetered<E>(s: Session<E>)
    requires Matched(s)
    ensures MeterAt(s, 0) == s.start && KeptOf(s, 0) == [] && LostOf(s, 0) == []
  {
  }

  lemma MeterNext<E>(s: Session<E>, i: nat, kept: seq<E>, lost: seq<E>)
    requires Matched(s) && i < |s.evs| && kept == KeptOf(s, i) && lost == LostOf(s, i)
    ensures var m := MeterAt(s, i);
            && MeterAt(s, i + 1) == Metered(m, s.size(s.evs[i]), s.ios[i], s.maxBytes, s.rotateBytes)
            && KeptOf(s, i + 1) == WithEvent(kept, s.evs[i], Counts(m, s.ios[i]) && !m.parked)
            && LostOf(s, i + 1) == WithEvent(lost, s.evs[i], Counts(m, s.ios[i]) && m.parked)
  {
  }

  // ---------- when and why a recording stops ----------

  /** The bytes recorded before event `n`, had nothing stopped the recording. */
  function BytesBefore<E>(s: Session<E>, n: nat): nat
    requires Matched(s) && n <= |s.evs|
  {
    if n == 0 then s.start.bytes
    else BytesBefore(s, n - 1) + if s.ios[n - 1].encodes then s.size(s.evs[n - 1]) + 1 else 0
  }

  /** Those of them since the last rotation that went through. */
  function SegmentBefore<E>(s: Session<E>, n: nat): nat
    requires Matched(s) && n <= |s.evs|
    decreases n, 0
  {
    if n == 0 then s.start.segmentBytes
    else if !s.ios[n - 1].encodes then SegmentBefore(s, n - 1)
    else if RotatesAt(s, n - 1) && s.ios[n - 1].renames && s.ios[n - 1].reopens && s.ios[n - 1].claims then 0
    else SegmentBefore(s, n - 1) + s.size(s.evs[n - 1]) + 1
  }

  /** Event `i` brings its segment to the rotation size. */
  predicate RotatesAt<E>(s: Session<E>, i: nat)
    requires Matched(s) && i < |s.evs|
    decreases i, 1
  {
    s.rotateBytes > 0 && SegmentBefore(s, i) + s.size(s.evs[i]) + 1 >= s.rotateBytes
  }

  /** The rotation of event `i`, if it has one, neither loses the file nor finds the disk full. */
  predicate RotationFine<E>(s: Session<E>, i: nat)
    requires Matched(s) && i < |s.evs|
  {
    RotatesAt(s, i) ==> (s.ios[i].renames ==> s.ios[i].reopens && s.ios[i].claims) && s.ios[i].roomy
  }

  /** Event `i` would stop the recording, and for this reason: a write that fails, or a file renamed and not
  reopened; a reopened file that somebody else holds; a disk without room, judged only where the segment
  rotates; the session cap, judged only when the rotation was fine. */
  predicate StopsFor<E>(s: Session<E>, i: nat, r: Reason)
    requires Matched(s) && i < |s.evs|
  {
    var io := s.ios[i];
    && io.encodes
    && match r
       case Failed => !io.writes || (RotatesAt(s, i) && io.renames && !io.reopens)
       case Locked => io.writes && RotatesAt(s, i) && io.renames && io.reopens && !io.claims
       case Disk => io.writes && RotatesAt(s, i) && (io.renames ==> io.reopens && io.claims) && !io.roomy
       case Cap => io.writes && RotationFine(s, i) && s.maxBytes > 0 && BytesBefore(s, i + 1) >= s.maxBytes
  }

  /** One of the first `n` events stops the recording. */
  ghost predicate StopsWithin<E>(s: Session<E>, n: nat)
    requires Matched(s) && n <= |s.evs|
  {
    exists i, r :: 0 <= i < n && StopsFor(s, i, r)
  }

  ghost predicate FirstStop<E>(s: Session<E>, i: nat, r: Reason)
    requires Matched(s)
  {
    i < |s.evs| && StopsFor(s, i, r) && !StopsWithin(s, i)
  }

  /** Event `i` is recorded: the recording was never stopped, and the event is encoded and written. */
  ghost predicate TakenAt<E>(s: Session<E>, i: nat)
    requires Matched(s) && i < |s.evs|
  {
    s.start.stopped.None? && s.ios[i].encodes && s.ios[i].writes && !StopsWithin(s, i)
  }

  ghost function TakenOf<E>(s: Session<E>, n: nat): seq<E>
    requires Matched(s) && n <= |s.evs|
  {
    if n == 0 then [] else WithEvent(TakenOf(s, n - 1), s.evs[n - 1], TakenAt(s, n - 1))
  }

  /** What stopped the recording, if anything: what had stopped it before, or its first stop. */
  ghost predicate StoppedBy<E>(s: Session<E>, n: nat, stopped: Option<Reason>)
    requires Matched(s) && n <= |s.evs|
  {
    if s.start.stopped.Some? then stopped == s.start.stopped
    else match stopped
         case None => !StopsWithin(s, n)
         case Some(r) => exists i :: 0 <= i < n && FirstStop(s, i, r)
  }

  lemma StopsWithinNext<E>(s: Session<E>, n: nat)
    requires Matched(s) && n < |s.evs|
    ensures StopsWithin(s, n + 1) <==> StopsWithin(s, n) || exists r :: StopsFor(s, n, r)
  {
    hide StopsFor;
    var m := n + 1;
    if r :| StopsFor(s, n, r) {
      assert 0 <= n < m && StopsFor(s, n, r);
    }
  }

  lemma OneReason<E>(s: Session<E>, i: nat, r: Reason, r': Reason)
    requires Matched(s) && i < |s.evs| && StopsFor(s, i, r) && StopsFor(s, i, r')
    ensures r == r'
  {
  }

  /** The meter after an event that was met running. */
  lemma MeterStops<E>(s: Session<E>, i: nat)
    requires Matched(s) && i < |s.evs|
    requires var m := MeterAt(s, i); m.stopped.None? && m.bytes == BytesBefore(s, i) && m.segmentBytes == SegmentBefore(s, i)
    ensures var m := MeterAt(s, i + 1);
            && (m.stopped.None? <==> forall r :: !StopsFor(s, i, r))
            && (m.stopped.Some? ==> StopsFor(s, i, m.stopped.value))
            && (m.stopped.None? ==> m.bytes == BytesBefore(s, i + 1) && m.segmentBytes == SegmentBefore(s, i + 1))
  {
    hide MeterAt;
    MeterNext(s, i, KeptOf(s, i), LostOf(s, i));
    var m := MeterAt(s, i + 1);
    if m.stopped.None? {
      assert !StopsFor(s, i, Failed) && !StopsFor(s, i, Locked) && !StopsFor(s, i, Disk) && !StopsFor(s, i, Cap);
    } else {
      assert StopsFor(s, i, m.stopped.value);
    }
  }

  lemma {:induction false} MeterIsStoppedBy<E>(s: Session<E>, n: nat)
    requires Matched(s) && n <= |s.evs|
    ensures var m := MeterAt(s, n);
            && StoppedBy(s, n, m.stopped)
            && (m.stopped.None? ==> m.bytes == BytesBefore(s, n) && m.segmentBytes == SegmentBefore(s, n))
    decreases n
  {
    hide StopsFor, BytesBefore, SegmentBefore;
    if n == 0 {
      NothingMetered(s);
      NothingBefore(s);
    } else {
      MeterIsStoppedBy(s, n - 1);
      if MeterAt(s, n - 1).stopped.None? {
        MeterStops(s, n - 1);
        StopsWithinNext(s, n - 1);
        if MeterAt(s, n).stopped.Some? {
          assert FirstStop(s, n - 1, MeterAt(s, n).stopped.value);
        }
      } else {
        StaysStopped(s, n);
      }
    }
  }

  lemma NothingBefore<E>(s: Session<E>)
    requires Matched(s)
    ensures BytesBefore(s, 0) == s.start.bytes && SegmentBefore(s, 0) == s.start.segmentBytes && StoppedBy(s, 0, s.start.stopped)
    ensures TakenOf(s, 0) == []
  {
  }

  lemma StaysStopped<E>(s: Session<E>, n: nat)
    requires Matched(s) && 1 <= n <= |s.evs| && MeterAt(s, n - 1).stopped.Some? && StoppedBy(s, n - 1, MeterAt(s, n - 1).stopped)
    ensures MeterAt(s, n).stopped == MeterAt(s, n - 1).stopped && StoppedBy(s, n, MeterAt(s, n).stopped)
  {
    hide StopsFor;
    if s.start.stopped.None? {
      var r := MeterAt(s, n - 1).stopped.value;
      var i :| 0 <= i < n - 1 && FirstStop(s, i, r);
      assert i < n;
    }
  }

  /** The counted events are the ones taken. */
  lemma CountedIsTaken<E>(s: Session<E>, i: nat)
    requires Matched(s) && i < |s.evs|
    ensures Counted(s, i) <==> TakenAt(s, i)
  {
    hide MeterAt, StopsFor;
    MeterIsStoppedBy(s, i);
    if s.start.stopped.None? && MeterAt(s, i).stopped.Some? {
      var r := MeterAt(s, i).stopped.value;
      var j :| 0 <= j < i && FirstStop(s, j, r);
      assert StopsFor(s, j, r);
    }
  }

  lemma {:induction false} TakenIsKeptAndLost<E>(s: Session<E>, n: nat)
    requires Matched(s) && n <= |s.evs|
    ensures |KeptOf(s, n)| + |LostOf(s, n)| == |TakenOf(s, n)| && Split(KeptOf(s, n), LostOf(s, n), TakenOf(s, n))
    decreases n
  {
    hide MeterAt, Counted, TakenAt;
    if n > 0 {
      TakenIsKeptAndLost(s, n - 1);
      CountedIsTaken(s, n - 1);
      var m, ev := MeterAt(s, n - 1), s.evs[n - 1];
      if TakenAt(s, n - 1) {
        SplitOneMore(KeptOf(s, n - 1), LostOf(s, n - 1), TakenOf(s, n - 1), ev, !m.parked);
      }
    }
  }

  /** When as many events are taken as there are, they are all of them. */
  lemma {:induction false} AllTaken<E>(s: Session<E>, n: nat)
    requires Matched(s) && n <= |s.evs|
    ensures |TakenOf(s, n)| <= n && (|TakenOf(s, n)| == n ==> TakenOf(s, n) == s.evs[..n])
    decreases n
  {
    hide TakenAt;
    if n > 0 {
      AllTaken(s, n - 1);
      assert s.evs[..n] == s.evs[..n - 1] + [s.evs[n - 1]];
    }
  }

  lemma SplitOneMore<E>(kept: seq<E>, lost: seq<E>, taken: seq<E>, ev: E, here: bool)
    requires Split(kept, lost, taken)
    ensures Split(WithEvent(kept, ev, here), WithEvent(lost, ev, !here), taken + [ev])
  {
  }

  // ---------- the session cap ----------

  /** Every call is fine and the disk has room; renames may fail. */
  ghost predicate AllFine(ios: seq<Io>) {
    forall i :: 0 <= i < |ios| ==> ios[i].encodes && ios[i].writes && ios[i].reopens && ios[i].claims && ios[i].roomy
  }

  /** The lines of these events, each with its newline. */
  function Lengths<E>(size: E -> nat, evs: seq<E>): nat {
    if evs == [] then 0 else Lengths(size, evs[..|evs| - 1]) + size(evs[|evs| - 1]) + 1
  }

  /** The first `n` events bring the session to its cap. */
  predicate Reaches<E>(size: E -> nat, evs: seq<E>, n: nat, bytes0: nat, maxBytes: nat)
    requires n <= |evs|
  {
    n >= 1 && maxBytes > 0 && bytes0 + Lengths(size, evs[..n]) >= maxBytes
  }

  /** Under a session cap: the recording is stopped exactly when some non-empty prefix of the events brings it
  to the cap, for that reason, and what is recorded is the shortest such prefix, or everything. */
  ghost predicate Capped<E>(size: E -> nat, evs: seq<E>, bytes0: nat, maxBytes: nat, stopped: Option<Reason>, taken: seq<E>) {
    && stopped == (if exists n :: 0 <= n <= |evs| && Reaches(size, evs, n, bytes0, maxBytes) then Some(Cap) else None)
    && taken <= evs && (stopped.None? ==> taken == evs)
    && (stopped.Some? ==> Reaches(size, evs, |taken|, bytes0, maxBytes))
    && forall n :: 0 <= n < |taken| ==> !Reaches(size, evs, n, bytes0, maxBytes)
  }

  lemma {:induction false} BytesAreLengths<E>(s: Session<E>, n: nat)
    requires Matched(s) && n <= |s.evs| && AllFine(s.ios)
    ensures BytesBefore(s, n) == s.start.bytes + Lengths(s.size, s.evs[..n])
    decreases n
  {
    if n > 0 {
      BytesAreLengths(s, n - 1);
      assert s.evs[..n][..n - 1] == s.evs[..n - 1];
    }
  }

  lemma FineStopsForCap<E>(s: Session<E>, i: nat, r: Reason)
    requires Matched(s) && i < |s.evs| && AllFine(s.ios)
    ensures StopsFor(s, i, r) <==> r == Cap && Reaches(s.size, s.evs, i + 1, s.start.bytes, s.maxBytes)
  {
    hide RotatesAt;
    BytesAreLengths(s, i + 1);
  }

  lemma {:induction false} FineTakes<E>(s: Session<E>, n: nat) returns (k: nat)
    requires Matched(s) && n <= |s.evs| && AllFine(s.ios) && s.start.stopped.None?
    ensures k <= n && TakenOf(s, n) == s.evs[..k]
    ensures forall i :: 0 <= i < k ==> !Reaches(s.size, s.evs, i, s.start.bytes, s.maxBytes)
    ensures if StopsWithin(s, n) then Reaches(s.size, s.evs, k, s.start.bytes, s.maxBytes) else k == n
    decreases n
  {
    hide StopsFor, Reaches;
    if n == 0 {
      k := 0;
    } else {
      k := FineTakes(s, n - 1);
      StopsWithinNext(s, n - 1);
      FineStopsForCap(s, n - 1, Cap);
      var i := n - 1;
      if r :| StopsFor(s, i, r) {
        FineStopsForCap(s, i, r);
      }
      if !StopsWithin(s, n - 1) {
        assert s.evs[..n - 1] + [s.evs[n - 1]] == s.evs[..n];
        if n - 1 >= 1 {
          FineStopsForCap(s, n - 2, Cap);
          StopsWithinNext(s, n - 2);
        } else {
          NoneReaches(s);
        }
        k := n;
      }
    }
  }

  lemma NoneReaches<E>(s: Session<E>)
    ensures !Reaches(s.size, s.evs, 0, s.start.bytes, s.maxBytes)
  {
  }

  lemma FineIsCapped<E>(s: Session<E>, stopped: Option<Reason>)
    requires Matched(s) && AllFine(s.ios) && s.start.stopped.None? && StoppedBy(s, |s.evs|, stopped)
    ensures Capped(s.size, s.evs, s.start.bytes, s.maxBytes, stopped, TakenOf(s, |s.evs|))
  {
    hide StopsFor, Reaches, TakenOf;
    var k := FineTakes(s, |s.evs|);
    if i, r :| 0 <= i < |s.evs| && StopsFor(s, i, r) {
      FineStopsForCap(s, i, r);
    }
    if n :| 0 <= n <= |s.evs| && Reaches(s.size, s.evs, n, s.start.bytes, s.maxBytes) {
      if n == 0 {
        NoneReaches(s);
      } else {
        FineStopsForCap(s, n - 1, Cap);
        assert StopsFor(s, n - 1, Cap);
      }
    }
    if stopped.Some? {
      var i :| 0 <= i < |s.evs| && FirstStop(s, i, stopped.value);
      assert StopsFor(s, i, stopped.value);
      FineStopsForCap(s, i, stopped.value);
    }
  }

  /** A whole recording: every call is an event or a drop; and while files reopen and time runs
  forward, replay finds the earlier recording followed by the events written while the handle was
  on the live file, in order.  The others are in the sink, and there are none when every rename
  succeeds.  What is recorded ends with the first event that stops the archive, and the reason is that
  event's; when every call is fine, that is the shortest prefix that reaches the session cap. */
  method RecordAll<E>(archive: Archive<E>, evs: seq<E>, ios: seq<Io>) returns (ghost kept: seq<E>, ghost lost: seq<E>)
    requires |ios| == |evs| && (archive.stopped.None? ==> Live(archive.stem) in archive.dir)
    modifies archive
    ensures archive.events + archive.dropped == old(archive.events) + old(archive.dropped) + |evs|
    ensures |kept| + |lost| == archive.events - old(archive.events) && archive.sink == old(archive.sink) + lost
    ensures archive.dropped == old(archive.dropped) ==> Split(kept, lost, evs)
    ensures old(archive.closed) <= archive.closed
    ensures old(archive.InOrder()) && Reliable(ios) && Timely(archive.time, old(archive.mark), evs)
            && Roomy(archive.time, old(archive.closed), evs) ==>
              archive.InOrder() && archive.Recorded() == old(archive.Recorded()) + kept
    ensures !old(archive.parked) && AllRename(ios) ==> lost == []
    ensures UsedSoFar(archive.time, old(archive.closed), archive.closed, evs)
    ensures MarkedBy(archive.time, old(archive.mark), archive.mark, evs)
    ensures var s := Session(old(archive.Gauge()), archive.size, evs, ios, archive.maxBytes, archive.rotateBytes);
            && archive.Gauge() == MeterAt(s, |evs|) && kept == KeptOf(s, |evs|) && lost == LostOf(s, |evs|)
            && (lost == [] <==> NothingHangs(s, |evs|))
            && (!old(archive.parked) ==> (lost == [] <==> NothingAfterFailure(s, |evs|)))
            && StoppedBy(s, |evs|, archive.stopped) && |kept| + |lost| == |TakenOf(s, |evs|)| && Split(kept, lost, TakenOf(s, |evs|))
            && (AllFine(ios) && old(archive.stopped).None? ==>
                  Capped(archive.size, evs, old(archive.bytes), archive.maxBytes, archive.stopped, TakenOf(s, |evs|)))
  {
    hide StoppedBy, TakenOf, AllFine, Capped, Metered, MeterAt, KeptOf, LostOf, Fills, NothingHangs, NothingAfterFailure, Counts, MarkedBy, Kept, FourDigitYear, NoNameLeft, InSecond, EventsInSecond, UsedSoFar, GrewBy, Archive.Recorded, Archive.TimelyEvent, Split, Timely, Roomy, Reliable, AllRename, WithEvent;
    ghost var orderly := archive.InOrder() && Reliable(ios) && Timely(archive.time, archive.mark, evs) && Roomy(archive.time, archive.closed, evs);
    ghost var closed0 := archive.closed;
    ghost var s := Session(archive.Gauge(), archive.size, evs, ios, archive.maxBytes, archive.rotateBytes);
    LiveIsThere(archive);
    ghost var recorded0 := if orderly then archive.Recorded() else [];
    kept, lost := [], [];
    NothingUsed(archive.time, closed0);
    NothingMarked(archive.time, archive.mark);
    NothingMetered(s);
    assert evs[0..] == evs;
    for i := 0 to |evs|
      invariant archive.stopped.None? ==> Live(archive.stem) in archive.dir
      invariant archive.events + archive.dropped == old(archive.events) + old(archive.dropped) + i
      invariant |kept| + |lost| == archive.events - old(archive.events) && archive.dropped >= old(archive.dropped)
      invariant archive.sink == old(archive.sink) + lost
      invariant archive.Gauge() == MeterAt(s, i) && kept == KeptOf(s, i) && lost == LostOf(s, i)
      invariant UsedSoFar(archive.time, closed0, archive.closed, evs[..i]) && closed0 <= archive.closed
      invariant MarkedBy(archive.time, old(archive.mark), archive.mark, evs[..i])
      invariant orderly ==> Timely(archive.time, archive.mark, evs[i..])
      invariant orderly ==> archive.InOrder() && Live(archive.stem) in archive.dir
      invariant orderly ==> archive.Recorded() == recorded0 + kept
    {
      ghost var closed := archive.closed;
      if orderly {
        ReadyFor(archive, closed0, evs, ios, i);
      }
      ReliableAt(ios, i);
      ghost var events, parked := archive.events, archive.parked;
      MarkedMore(archive.time, old(archive.mark), archive.mark, evs, i);
      archive.Record(evs[i], ios[i]);
      UsedOneMore(archive.time, closed0, closed, archive.closed, evs, i);
      GrewOnly(closed, archive.closed, archive.time(evs[i]));
      KeptOrLost(recorded0, old(archive.sink), kept, lost, evs[i], archive.events > events, parked);
      MeterNext(s, i, kept, lost);
      kept, lost := WithEvent(kept, evs[i], archive.events > events && !parked), WithEvent(lost, evs[i], archive.events > events && parked);
      LiveIsThere(archive);
    }
    assert evs[..|evs|] == evs;
    LostIffHangs(s, |evs|);
    AllTaken(s, |evs|);
    MeterIsStoppedBy(s, |evs|);
    TakenIsKeptAndLost(s, |evs|);
    if AllFine(ios) && s.start.stopped.None? {
      FineIsCapped(s, archive.stopped);
    }
    if !s.start.parked {
      LostIffCountedAfterFailure(s, |evs|);
      if AllRename(ios) {
        AllRenamedKeepsAll(s);
      }
    }
  }

  function Fine(renames: bool): Io {
    Io(true, true, renames, true, true, true)
  }

  /** The first rename fails and the second succeeds: both events are counted and none is dropped, the
  handle is back on the live file, and the second event is in the sink, not in the archive. */
  method FailedRenameLosesNext<E>(stem: string, size: E -> nat, time: E -> int, e1: E, e2: E) returns (archive: Archive<E>)
    ensures fresh(archive) && archive.stopped.None? && archive.events == 2 && archive.dropped == 0
    ensures archive.sink == [e2] && !archive.parked
    ensures 0 < time(e1) <= time(e2) && FourDigitYear(time(e1)) && FourDigitYear(time(e2)) ==>
              archive.InOrder() && Live(archive.stem) in archive.dir && archive.Recorded() == [e1]
  {
    hide FourDigitYear, Kept, IsRotatedSegment, Timely, Roomy, Reliable, MeterAt, KeptOf, LostOf, UsedSoFar, MarkedBy, NothingHangs, NothingAfterFailure, Split;
    archive := new Archive(stem, size, time, 0, 1, map[], 0, true, [], 0);
    LiveNotRecognised(stem);
    ghost var s := Session(archive.Gauge(), size, [e1, e2], [Fine(false), Fine(true)], 0, 1);
    TwoRenames(s);
    TwoInOrder(time, e1, e2);
    assert archive.Recorded() == [];
    ghost var kept, lost := RecordAll(archive, [e1, e2], [Fine(false), Fine(true)]);
    LiveIsThere(archive);
  }

  lemma TwoInOrder<E>(time: E -> int, e1: E, e2: E)
    ensures Reliable([Fine(false), Fine(true)]) && Roomy(time, [], [e1, e2])
    ensures 0 < time(e1) <= time(e2) && FourDigitYear(time(e1)) && FourDigitYear(time(e2)) ==> Timely(time, 0, [e1, e2])
  {
    hide FourDigitYear;
    FewEvents(time, [e1, e2]);
  }

  lemma TwoRenames<E>(s: Session<E>)
    requires s.start == Meter(false, 0, 0, None) && |s.evs| == 2 && s.ios == [Fine(false), Fine(true)] && s.maxBytes == 0 && s.rotateBytes == 1
    ensures !MeterAt(s, 2).parked && MeterAt(s, 2).stopped.None?
    ensures KeptOf(s, 2) == [s.evs[0]] && LostOf(s, 2) == [s.evs[1]]
  {
    assert MeterAt(s, 1) == Meter(true, s.size(s.evs[0]) + 1, s.size(s.evs[0]) + 1, None);
    assert KeptOf(s, 1) == [s.evs[0]] && LostOf(s, 1) == [];
  }

  lemma {:induction false} FewEvents<E>(time: E -> int, evs: seq<E>)
    ensures forall sec :: EventsInSecond(time, evs, sec) <= |evs|
    decreases |evs|
  {
    if evs != [] {
      FewEvents(time, evs[..|evs| - 1]);
    }
  }

  /** A restart: the archive opened anew over its own directory, its counters at the length of the live
  file, is in order if the old one was, and what replay finds is what it found before. */
  method Reopen<E>(archive: Archive<E>, maxBytes: nat, rotateBytes: nat, bytes0: nat, owned: bool) returns (next: Archive<E>)
    requires archive.InOrder()
    ensures next.Gauge() == Meter(false, bytes0, bytes0, if owned then None else Some(Locked)) && next.maxBytes == maxBytes && next.rotateBytes == rotateBytes
    ensures fresh(next) && next.stem == archive.stem && next.time == archive.time && next.events == next.dropped == 0 && !next.parked
    ensures next.InOrder() && Live(next.stem) in next.dir && next.mark == archive.mark && next.closed == archive.closed
    ensures next.Recorded() == old(archive.Recorded())
  {
    next := new Archive(archive.stem, archive.size, archive.time, maxBytes, rotateBytes, archive.dir, bytes0, owned, archive.closed, archive.mark);
  }

  /** The mark is the earlier one, or the time of one of the events. */
  ghost predicate MarkedBy<E>(time: E -> int, before: int, mark: int, evs: seq<E>) {
    mark == before || exists i :: 0 <= i < |evs| && mark == time(evs[i])
  }

  lemma NothingMarked<E>(time: E -> int, mark: int)
    ensures MarkedBy(time, mark, mark, [])
  {
  }

  lemma MarkedMore<E>(time: E -> int, before: int, mark: int, evs: seq<E>, i: nat)
    requires i < |evs| && MarkedBy(time, before, mark, evs[..i])
    ensures MarkedBy(time, before, mark, evs[..i + 1]) && MarkedBy(time, before, time(evs[i]), evs[..i + 1])
  {
    assert evs[..i + 1][i] == evs[i];
    if j :| 0 <= j < i && mark == time(evs[..i][j]) {
      assert evs[..i + 1][j] == evs[..i][j];
    }
  }

  lemma {:induction false} EventsOfBoth<E>(time: E -> int, a: seq<E>, b: seq<E>, sec: int)
    ensures EventsInSecond(time, a + b, sec) == EventsInSecond(time, a, sec) + EventsInSecond(time, b, sec)
    decreases |b|
  {
    if b == [] {
      assert a + b == a;
    } else {
      var n := |b| - 1;
      EventsOfBoth(time, a, b[..n], sec);
      assert (a + b)[..|a + b| - 1] == a + b[..n];
    }
  }

  /** What makes one recording of two orderly makes each of them orderly. */
  lemma FirstPart<E>(time: E -> int, mark: int, closed: seq<Segment<E>>, a: seq<E>, b: seq<E>)
    requires Timely(time, mark, a + b) && Roomy(time, closed, a + b)
    ensures Timely(time, mark, a) && Roomy(time, closed, a)
  {
    assert forall i :: 0 <= i < |a| ==> a[i] == (a + b)[i];
    forall sec ensures InSecond(closed, sec) + EventsInSecond(time, a, sec) < MAX_SUFFIX - 1 {
      EventsOfBoth(time, a, b, sec);
      assert InSecond(closed, sec) + EventsInSecond(time, a + b, sec) < MAX_SUFFIX - 1;
    }
  }

  lemma SecondPart<E>(time: E -> int, mark: int, mark': int, closed: seq<Segment<E>>, closed': seq<Segment<E>>, a: seq<E>, b: seq<E>)
    requires Timely(time, mark, a + b) && Roomy(time, closed, a + b)
    requires UsedSoFar(time, closed, closed', a) && MarkedBy(time, mark, mark', a)
    ensures Timely(time, mark', b) && Roomy(time, closed', b)
  {
    assert forall i :: 0 <= i < |b| ==> b[i] == (a + b)[|a| + i];
    assert forall i :: 0 <= i < |a| ==> a[i] == (a + b)[i];
    forall sec ensures InSecond(closed', sec) + EventsInSecond(time, b, sec) < MAX_SUFFIX - 1 {
      EventsOfBoth(time, a, b, sec);
      assert InSecond(closed, sec) + EventsInSecond(time, a + b, sec) < MAX_SUFFIX - 1;
      assert InSecond(closed', sec) <= InSecond(closed, sec) + EventsInSecond(time, a, sec);
    }
  }

  /** A recording, a restart, and a recording after it: replay finds the events of both, in order. */
  method RecordRestartRecord<E>(archive: Archive<E>, evs: seq<E>, ios: seq<Io>, maxBytes: nat, bytes0: nat, evs': seq<E>, ios': seq<Io>)
    returns (next: Archive<E>, ghost kept: seq<E>)
    requires |ios| == |evs| && |ios'| == |evs'| && archive.InOrder() && !archive.parked
    requires Reliable(ios) && AllRename(ios) && Reliable(ios') && AllRename(ios')
    requires Timely(archive.time, archive.mark, evs + evs') && Roomy(archive.time, archive.closed, evs + evs')
    modifies archive
    ensures next.InOrder() && Live(next.stem) in next.dir && next.Recorded() == old(archive.Recorded()) + kept
    ensures archive.dropped == old(archive.dropped) && next.dropped == 0 ==> kept == evs + evs'
  {
    hide Kept, Reliable, AllRename, InSecond, EventsInSecond, Timely, Roomy, UsedSoFar, MarkedBy, Archive.Recorded;
    ghost var mark0, closed0 := archive.mark, archive.closed;
    FirstPart(archive.time, mark0, closed0, evs, evs');
    LiveIsThere(archive);
    ghost var a, lost := RecordAll(archive, evs, ios);
    SecondPart(archive.time, mark0, archive.mark, closed0, archive.closed, evs, evs');
    next := Reopen(archive, maxBytes, archive.rotateBytes, bytes0, true);
    ghost var b, lost' := RecordAll(next, evs', ios');
    LiveIsThere(next);
    kept := a + b;
  }

  lemma GrewOnly<E>(closed: seq<Segment<E>>, closed': seq<Segment<E>>, at: int)
    requires GrewBy(closed, closed', at)
    ensures closed <= closed'
  {
  }

  lemma LiveIsThere<E>(archive: Archive<E>)
    ensures archive.InOrder() ==> Live(archive.stem) in archive.dir
  {
  }

  lemma NothingUsed<E>(time: E -> int, closed: seq<Segment<E>>)
    ensures UsedSoFar(time, closed, closed, [])
  {
  }

  // ---------- from the recording to the replay ----------

  /** The lines of a file the archive wrote: decoding inverts encoding. */
  function AsLines<E>(evs: seq<E>): seq<S.Line<E>> {
    if evs == [] then [] else [S.Event(evs[0])] + AsLines(evs[1..])
  }

  function Files<E>(dir: Dir<E>, names: seq<string>): seq<seq<S.Line<E>>>
    requires forall i :: 0 <= i < |names| ==> names[i] in dir
  {
    if names == [] then [] else [AsLines(dir[names[0]])] + Files(dir, names[1..])
  }

  lemma {:induction false} LinesHoldEvents<E>(evs: seq<E>)
    ensures S.Events(AsLines(evs)) == evs && S.BadLines(AsLines(evs)) == 0
  {
    if evs != [] {
      LinesHoldEvents(evs[1..]);
      assert AsLines(evs)[1..] == AsLines(evs[1..]);
      assert evs == [evs[0]] + evs[1..];
    }
  }

  lemma {:induction false} FilesHoldReplay<E>(dir: Dir<E>, names: seq<string>)
    requires forall i :: 0 <= i < |names| ==> names[i] in dir
    ensures S.Events(S.Joined(Files(dir, names))) == Replayed(dir, names) && S.BadLines(S.Joined(Files(dir, names))) == 0
    decreases |names|
  {
    hide S.Events, S.BadLines, AsLines;
    if names == [] {
      NoLinesNoEvents<E>();
    } else {
      var first, rest := AsLines(dir[names[0]]), Files(dir, names[1..]);
      FilesHoldReplay(dir, names[1..]);
      LinesHoldEvents(dir[names[0]]);
      assert Files(dir, names)[1..] == rest;
      S.EventsConcat(first, S.Joined(rest));
      S.BadLinesConcat(first, S.Joined(rest));
    }
  }

  lemma NoLinesNoEvents<E>()
    ensures S.Events<E>([]) == [] && S.BadLines<E>([]) == 0
  {
  }

  /** Opening the directory of an archive in order, whatever order its entries are listed in: the
  reader replays exactly the recorded events, finds no malformed line, and reports what one
  unrotated file of them would. */
  method ReplayDirectory<E>(stem: string, dir: Dir<E>, entries: seq<string>, time: E -> int, isSpot: E -> bool,
                            ghost closed: seq<Segment<E>>, ghost lastAt: int)
    returns (out: seq<E>, stats: S.Stats)
    requires Kept(stem, dir, closed, lastAt) && DistinctNames(entries) && forall name :: name in entries <==> name in dir
    ensures out == Contents(closed) + dir[Live(stem)]
    ensures stats == S.Stats(|out|, 0, |S.LatePlaces(time, out)|, |S.SpotPlaces(isSpot, out)|)
  {
    hide Kept, Contents, IsRotatedSegment, KeyBefore, S.LatePlaces, S.SpotPlaces, S.Reported;
    LiveInKept(stem, dir, closed, lastAt);
    var mine := OpenDir(stem, entries);
    assert IsMine(stem, Live(stem));
    var names := mine.value;
    assert Listing(stem, dir, names);
    ReplayIsTheRecording(stem, dir, closed, lastAt, names);
    FilesHoldReplay(dir, names);
    out, stats := S.ReplaySegments(Files(dir, names), time, isSpot);
    S.LateCount(time, out);
    S.SpotCount(isSpot, out);
  }

  lemma LiveInKept<E>(stem: string, dir: Dir<E>, closed: seq<Segment<E>>, lastAt: int)
    requires Kept(stem, dir, closed, lastAt)
    ensures Live(stem) in dir
  {
  }
}
