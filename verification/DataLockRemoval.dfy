/** The write gate of `data_lock.rs` when a refused core removes a directory. */
module DataLockRemoval {
  import opened Wrappers
  import L = DataLock

  /* Module `DataLock` identifies a directory with its lock.  The kernel does not: the lock lives on the
  directory that was opened, and the path may have come to name another one since.  Here the two are
  kept apart, for one directory, system call by system call.  Each process runs the calls of
  `acquire` on it; what its other anchors answer is a choice of the run. */

  type Pid = nat
  /** A directory as the kernel knows it, whatever path names it. */
  type Inode = nat

  /** Where a process stands at this directory; `created` is its own belief that it made it. */
  datatype Stage =
    | Outside
    | Looked(created: bool)                          // `is_dir` has answered
    | Made(created: bool)                            // `create_dir_all` has returned
    | Opened(ino: Inode, created: bool)
    | Locked(ino: Inode, created: bool)              // `try_lock` succeeded
    | Probing(ino: Inode, created: bool, q: Pid)     // the record names `q`
    | Decided(ino: Inode, created: bool)             // claimed or taken over
    | Giving(ino: Inode)                             // refused elsewhere: about to remove the directory
    | Dropping(ino: Inode)                           // about to unlock
    | Writing(ino: Inode)                            // every anchor decided: about to write the record
    | Wrote(ino: Inode)                              // other anchors' records still to be written
    | In(ino: Inode)                                 // let in
    | Out

  datatype World = World(
    path: Option<Inode>,            // what the path names
    next: Inode,                    // never named yet
    locks: map<Inode, Pid>,
    records: map<Inode, L.Record>,  // the record inside each directory
    live: set<Pid>,
    used: set<Pid>,
    procs: map<Pid, Stage>)

  predicate At(w: World, p: Pid) {
    p in w.procs && p in w.live
  }

  function RecordIn(w: World, ino: Inode): L.Record {
    if ino in w.records then w.records[ino] else L.Absent
  }

  /** What reading the record by its path answers. */
  function RecordByPath(w: World): L.Record {
    if w.path.Some? then RecordIn(w, w.path.value) else L.Absent
  }

  predicate PidAlive(w: World, p: Pid) {
    0 < p <= L.I32_MAX && p in w.live
  }

  datatype Step =
    | Enter(p: Pid)
    | Look(p: Pid)
    | Make(p: Pid)
    | Open(p: Pid)
    | Lock(p: Pid, apiError: bool)
    | Read(p: Pid)
    | Probe(p: Pid)
    | Refuse(p: Pid)               // another anchor was busy
    | Commit(p: Pid)               // no anchor was busy
    | Remove(p: Pid, works: bool)
    | Drop(p: Pid)
    | Write(p: Pid, ok: bool)
    | Finish(p: Pid, ok: bool)     // whether every other record could be written
    | Die(p: Pid)

  predicate Can(w: World, s: Step) {
    match s
    case Enter(p) => p !in w.used && 0 < p <= L.I32_MAX
    case Die(p) => p in w.live
    case Look(p) => At(w, p) && w.procs[p].Outside?
    case Make(p) => At(w, p) && w.procs[p].Looked?
    case Open(p) => At(w, p) && w.procs[p].Made?
    case Lock(p, _) => At(w, p) && w.procs[p].Opened?
    case Read(p) => At(w, p) && w.procs[p].Locked?
    case Probe(p) => At(w, p) && w.procs[p].Probing?
    case Refuse(p) => At(w, p) && w.procs[p].Decided?
    case Commit(p) => At(w, p) && w.procs[p].Decided?
    case Remove(p, works) => At(w, p) && w.procs[p].Giving? && (works ==> w.path.Some? && RecordByPath(w).Absent?)
    case Drop(p) => At(w, p) && w.procs[p].Dropping?
    case Write(p, _) => At(w, p) && w.procs[p].Writing?
    case Finish(p, _) => At(w, p) && w.procs[p].Wrote?
  }

  function Set(w: World, p: Pid, stage: Stage): World {
    w.(procs := w.procs[p := stage])
  }

  /** `create_dir_all`: the path names a directory afterwards, a new one if it named none. */
  function Ensured(w: World): World {
    if w.path.Some? then w else w.(path := Some(w.next), next := w.next + 1)
  }

  function Unlocked(w: World, ino: Inode, p: Pid): World {
    w.(locks := map i | i in w.locks && !(i == ino && w.locks[i] == p) :: w.locks[i])
  }

  function After(w: World, s: Step): World
    requires Can(w, s)
  {
    match s
    case Enter(p) => Set(w, p, Outside).(live := w.live + {p}, used := w.used + {p})
    case Die(p) => w.(live := w.live - {p}, locks := map i | i in w.locks && w.locks[i] != p :: w.locks[i])
    case Look(p) => Set(w, p, Looked(w.path.None?))
    case Make(p) =>
      var created := w.procs[p].created;
      Set(if created then Ensured(w) else w, p, Made(created))
    case Open(p) => Set(w, p, if w.path.Some? then Opened(w.path.value, w.procs[p].created) else Out)
    case Lock(p, apiError) =>
      var ino := w.procs[p].ino;
      if apiError || ino in w.locks then Set(w, p, Out)
      else Set(w, p, Locked(ino, w.procs[p].created)).(locks := w.locks[ino := p])
    case Read(p) =>
      var ino, created := w.procs[p].ino, w.procs[p].created;
      (match RecordByPath(w)
       case Absent => Set(w, p, Decided(ino, created))
       case Held(q) => Set(w, p, Probing(ino, created, q))
       case Unreadable => Unlocked(Set(w, p, Out), ino, p))
    case Probe(p) =>
      var ino := w.procs[p].ino;
      if PidAlive(w, w.procs[p].q) then Unlocked(Set(w, p, Out), ino, p) else Set(w, p, Decided(ino, w.procs[p].created))
    case Refuse(p) =>
      var ino := w.procs[p].ino;
      Set(w, p, if w.procs[p].created then Giving(ino) else Dropping(ino))
    case Commit(p) => Set(w, p, Writing(w.procs[p].ino))
    case Remove(p, works) =>
      var gone := Set(w, p, Dropping(w.procs[p].ino));
      if works then gone.(path := None) else gone
    case Drop(p) => Unlocked(Set(w, p, Out), w.procs[p].ino, p)
    case Write(p, ok) =>
      var ino := w.procs[p].ino;
      if !ok then Set(w, p, Dropping(ino))
      else
        var there := Ensured(w);
        Set(there, p, Wrote(ino)).(records := there.records[there.path.value := L.Held(p)])
    case Finish(p, ok) => Set(w, p, if ok then In(w.procs[p].ino) else Dropping(w.procs[p].ino))
  }

  /** Nobody has entered yet; the directory may exist or not, with a record in it or not. */
  ghost predicate Init(w: World) {
    && w.locks == map[] && w.procs == map[] && w.live <= w.used
    && (forall i :: i in w.records ==> i < w.next) && (w.path.Some? ==> w.path.value < w.next)
  }

  ghost predicate IsRun(w: World, run: seq<Step>)
    decreases |run|
  {
    run == [] || (Can(w, run[0]) && IsRun(After(w, run[0]), run[1..]))
  }

  ghost function End(w: World, run: seq<Step>): World
    requires IsRun(w, run)
    decreases |run|
  {
    if run == [] then w else End(After(w, run[0]), run[1..])
  }

  /** At most one live process was let in. */
  ghost predicate Exclusive(w: World) {
    forall p, q :: At(w, p) && At(w, q) && w.procs[p].In? && w.procs[q].In? ==> p == q
  }

  // ---------- removals that strike ----------

  /** A process works on the directory it opened. */
  predicate Holding(s: Stage) {
    s.Opened? || s.Locked? || s.Probing? || s.Decided? || s.Giving? || s.Writing? || s.Wrote? || s.In?
  }

  predicate HasLock(s: Stage) {
    s.Locked? || s.Probing? || s.Decided? || s.Giving? || s.Writing? || s.Wrote? || s.In? || s.Dropping?
  }

  /** The step removes a directory that another live process has open. */
  ghost predicate Strikes(w: World, s: Step) {
    s.Remove? && s.works && exists q :: q != s.p && At(w, q) && Holding(w.procs[q])
  }

  ghost predicate NoStrike(w: World, run: seq<Step>)
    requires IsRun(w, run)
    decreases |run|
  {
    run == [] || (!Strikes(w, run[0]) && NoStrike(After(w, run[0]), run[1..]))
  }

  /** What everybody has open is what the path names, and locks are held by who took them. */
  ghost predicate Anchored(w: World) {
    && w.live <= w.used && w.procs.Keys <= w.used
    && (w.path.Some? ==> w.path.value < w.next)
    && (forall p :: At(w, p) && Holding(w.procs[p]) ==> w.path == Some(w.procs[p].ino))
    && (forall p :: At(w, p) && w.procs[p].Dropping? ==> w.procs[p].ino < w.next)
    && (forall p :: At(w, p) && HasLock(w.procs[p]) ==> w.procs[p].ino in w.locks && w.locks[w.procs[p].ino] == p)
    && (forall i :: i in w.locks ==> At(w, w.locks[i]) && HasLock(w.procs[w.locks[i]]) && w.procs[w.locks[i]].ino == i)
  }

  lemma AnchoredStart(w: World)
    requires Init(w)
    ensures Anchored(w)
  {
  }

  lemma AnchoredExclusive(w: World)
    requires Anchored(w)
    ensures Exclusive(w)
  {
    forall p, q | At(w, p) && At(w, q) && w.procs[p].In? && w.procs[q].In? ensures p == q {
      assert Holding(w.procs[p]) && HasLock(w.procs[p]) && Holding(w.procs[q]) && HasLock(w.procs[q]);
    }
  }

  /** A process that keeps what it has open, and its lock if it has one. */
  lemma AnchoredMove(w: World, p: Pid, stage: Stage)
    requires Anchored(w) && At(w, p)
    requires HasLock(stage) <==> HasLock(w.procs[p])
    requires HasLock(stage) ==> stage.ino == w.procs[p].ino
    requires Holding(stage) ==> w.path == Some(stage.ino)
    requires stage.Dropping? ==> stage.ino < w.next
    ensures Anchored(Set(w, p, stage))
  {
  }

  lemma AnchoredLet(w: World, p: Pid)
    requires Anchored(w) && At(w, p) && HasLock(w.procs[p])
    ensures Anchored(Unlocked(Set(w, p, Out), w.procs[p].ino, p))
  {
  }

  lemma AnchoredGrab(w: World, p: Pid, created: bool)
    requires Anchored(w) && At(w, p) && w.procs[p].Opened? && w.procs[p].ino !in w.locks
    ensures Anchored(Set(w, p, Locked(w.procs[p].ino, created)).(locks := w.locks[w.procs[p].ino := p]))
  {
  }

  lemma AnchoredEnsured(w: World)
    requires Anchored(w)
    ensures Anchored(Ensured(w))
  {
  }

  lemma AnchoredRemove(w: World, p: Pid, works: bool)
    requires Anchored(w) && Can(w, Remove(p, works)) && !Strikes(w, Remove(p, works))
    ensures Anchored(After(w, Remove(p, works)))
  {
    var ino := w.procs[p].ino;
    AnchoredMove(w, p, Dropping(ino));
    var gone := Set(w, p, Dropping(ino));
    if works {
      forall q | At(gone, q) ensures !Holding(gone.procs[q]) {
        assert q != p ==> At(w, q) && gone.procs[q] == w.procs[q];
      }
    }
  }

  lemma AnchoredWrite(w: World, p: Pid, ok: bool)
    requires Anchored(w) && Can(w, Write(p, ok))
    ensures Anchored(After(w, Write(p, ok)))
  {
    var ino := w.procs[p].ino;
    AnchoredMove(w, p, if ok then Wrote(ino) else Dropping(ino));
  }

  lemma AnchoredEnterDie(w: World, s: Step)
    requires Anchored(w) && Can(w, s) && (s.Enter? || s.Die?)
    ensures Anchored(After(w, s))
  {
  }

  lemma AnchoredReach(w: World, s: Step)
    requires Anchored(w) && Can(w, s) && (s.Look? || s.Make? || s.Open? || s.Lock?)
    ensures Anchored(After(w, s))
  {
    hide Anchored;
    var p := s.p;
    if s.Make? {
      AnchoredEnsured(w);
      AnchoredMove(if w.procs[p].created then Ensured(w) else w, p, After(w, s).procs[p]);
    } else if s.Lock? && !s.apiError && w.procs[p].ino !in w.locks {
      AnchoredGrab(w, p, w.procs[p].created);
    } else {
      AnchoredMove(w, p, After(w, s).procs[p]);
    }
  }

  lemma AnchoredJudge(w: World, s: Step)
    requires Anchored(w) && Can(w, s) && (s.Read? || s.Probe? || s.Refuse? || s.Commit? || s.Drop? || s.Finish?)
    ensures Anchored(After(w, s))
  {
    var p := s.p;
    assert Holding(w.procs[p]) ==> w.path == Some(w.procs[p].ino);
    hide Anchored;
    if s.Drop? || (s.Read? && RecordByPath(w).Unreadable?) || (s.Probe? && PidAlive(w, w.procs[p].q)) {
      AnchoredLet(w, p);
    } else {
      NextInode(w);
      AnchoredMove(w, p, After(w, s).procs[p]);
    }
  }

  lemma NextInode(w: World)
    requires Anchored(w)
    ensures w.path.Some? ==> w.path.value < w.next
  {
  }

  lemma AnchoredStep(w: World, s: Step)
    requires Anchored(w) && Can(w, s) && !Strikes(w, s)
    ensures Anchored(After(w, s))
  {
    hide Anchored, Strikes, Can, After;
    if s.Enter? || s.Die? {
      AnchoredEnterDie(w, s);
    } else if s.Remove? {
      AnchoredRemove(w, s.p, s.works);
    } else if s.Write? {
      AnchoredWrite(w, s.p, s.ok);
    } else if s.Look? || s.Make? || s.Open? || s.Lock? {
      AnchoredReach(w, s);
    } else {
      AnchoredJudge(w, s);
    }
  }

  /** Unless a removal strikes, the gate excludes: in every interleaving at most one live process is
  let in. */
  lemma {:induction false} NoStrikeExcludes(w: World, run: seq<Step>)
    requires Anchored(w) && IsRun(w, run) && NoStrike(w, run)
    ensures Anchored(End(w, run)) && Exclusive(End(w, run))
    decreases |run|
  {
    hide Anchored, Strikes;
    if run == [] {
      AnchoredExclusive(w);
    } else {
      AnchoredStep(w, run[0]);
      NoStrikeExcludes(After(w, run[0]), run[1..]);
    }
  }

  // ---------- a directory that was there before ----------

  /** Nobody believes to have made the directory. */
  ghost predicate Settled(w: World) {
    && w.path.Some?
    && forall p :: p in w.procs ==>
                     var s := w.procs[p];
                     !s.Giving? && (s.Looked? || s.Made? || s.Opened? || s.Locked? || s.Probing? || s.Decided? ==> !s.created)
  }

  lemma SettledStep(w: World, s: Step)
    requires Settled(w) && Can(w, s)
    ensures Settled(After(w, s)) && !s.Remove?
  {
  }

  lemma {:induction false} SettledRun(w: World, run: seq<Step>)
    requires Settled(w) && IsRun(w, run)
    ensures NoStrike(w, run)
    decreases |run|
  {
    if run != [] {
      SettledStep(w, run[0]);
      SettledRun(After(w, run[0]), run[1..]);
    }
  }

  // ---------- a directory that was not ----------

  lemma {:induction false} RunsCompose(w: World, a: seq<Step>, b: seq<Step>)
    requires IsRun(w, a) && IsRun(End(w, a), b)
    ensures IsRun(w, a + b) && End(w, a + b) == End(End(w, a), b)
    decreases |a|
  {
    hide Can, After;
    if a == [] {
      assert a + b == b;
    } else {
      assert (a + b)[1..] == a[1..] + b;
      RunsCompose(After(w, a[0]), a[1..], b);
    }
  }

  /** One step more. */
  lemma Also(w: World, run: seq<Step>, e: World, s: Step) returns (run': seq<Step>, e': World)
    requires IsRun(w, run) && End(w, run) == e && Can(e, s)
    ensures IsRun(w, run') && End(w, run') == e' == After(e, s)
  {
    assert [s][1..] == [];
    assert IsRun(e, [s]);
    RunsCompose(w, run, [s]);
    run', e' := run + [s], After(e, s);
  }

  lemma Nothing(w: World)
    ensures IsRun(w, []) && End(w, []) == w
  {
  }

  /** A process that finds no directory makes one and claims it. */
  lemma Claims(w: World, p: Pid) returns (run: seq<Step>, e: World)
    requires Can(w, Enter(p)) && w.path.None? && w.next !in w.locks && w.next !in w.records
    ensures IsRun(w, run) && End(w, run) == e
    ensures e == w.(path := Some(w.next), next := w.next + 1, locks := w.locks[w.next := p],
                    live := w.live + {p}, used := w.used + {p}, procs := w.procs[p := Decided(w.next, true)])
  {
    hide IsRun, End;
    Nothing(w);
    run, e := Also(w, [], w, Enter(p));
    run, e := Also(w, run, e, Look(p));
    run, e := Also(w, run, e, Make(p));
    run, e := Also(w, run, e, Open(p));
    run, e := Also(w, run, e, Lock(p, false));
    run, e := Also(w, run, e, Read(p));
  }

  /** A second process opens the directory and stops short of the lock. */
  lemma Arrives(w: World, q: Pid) returns (run: seq<Step>, e: World)
    requires Can(w, Enter(q)) && w.path.Some?
    ensures IsRun(w, run) && End(w, run) == e
    ensures e == w.(live := w.live + {q}, used := w.used + {q}, procs := w.procs[q := Opened(w.path.value, false)])
  {
    hide IsRun, End;
    Nothing(w);
    run, e := Also(w, [], w, Enter(q));
    run, e := Also(w, run, e, Look(q));
    run, e := Also(w, run, e, Make(q));
    run, e := Also(w, run, e, Open(q));
  }

  /** The first is refused elsewhere: it removes the directory it made, then unlocks. */
  lemma GivesUp(w: World, p: Pid, ino: Inode) returns (run: seq<Step>, e: World)
    requires At(w, p) && w.procs[p] == Decided(ino, true) && w.path.Some? && RecordByPath(w).Absent?
    requires w.locks == map[ino := p]
    ensures IsRun(w, run) && End(w, run) == e
    ensures e == w.(path := None, locks := map[], procs := w.procs[p := Out])
  {
    hide IsRun, End;
    Nothing(w);
    run, e := Also(w, [], w, Refuse(p));
    run, e := Also(w, run, e, Remove(p, true));
    run, e := Also(w, run, e, Drop(p));
  }

  /** The second locks what it opened, and finds no record where the path leads. */
  lemma LocksOrphan(w: World, q: Pid, ino: Inode) returns (run: seq<Step>, e: World)
    requires At(w, q) && w.procs[q] == Opened(ino, false) && w.path.None? && ino !in w.locks
    ensures IsRun(w, run) && End(w, run) == e
    ensures e == w.(locks := w.locks[ino := q], procs := w.procs[q := Decided(ino, false)])
  {
    hide IsRun, End;
    Nothing(w);
    run, e := Also(w, [], w, Lock(q, false));
    run, e := Also(w, run, e, Read(q));
  }

  lemma IsLetIn(w: World, q: Pid, ino: Inode) returns (run: seq<Step>, e: World)
    requires At(w, q) && w.procs[q].Decided? && w.procs[q].ino == ino && w.path.Some?
    ensures IsRun(w, run) && End(w, run) == e
    ensures e == w.(records := w.records[w.path.value := L.Held(q)], procs := w.procs[q := In(ino)])
  {
    hide IsRun, End;
    Nothing(w);
    run, e := Also(w, [], w, Commit(q));
    run, e := Also(w, run, e, Write(q, true));
    run, e := Also(w, run, e, Finish(q, true));
  }

  lemma Then(w: World, a: seq<Step>, e: World, b: seq<Step>, f: World) returns (run: seq<Step>)
    requires IsRun(w, a) && End(w, a) == e && IsRun(e, b) && End(e, b) == f
    ensures IsRun(w, run) && End(w, run) == f
  {
    RunsCompose(w, a, b);
    run := a + b;
  }

  /** Where there was no directory, three processes are enough: the first makes it and is refused,
  the second has opened it by then, and the third makes it anew.  Two are let in, and the record of
  one of them, alive, is replaced by the other's. */
  lemma RemovalLetsTwoIn(w: World, p: Pid, q: Pid, r: Pid) returns (run: seq<Step>, before: World)
    requires Init(w) && w.path.None? && p != q && q != r && p != r
    requires Can(w, Enter(p)) && Can(w, Enter(q)) && Can(w, Enter(r))
    ensures IsRun(w, run) && !Exclusive(End(w, run))
    ensures RecordByPath(before) == L.Held(q) && RecordByPath(End(w, run)) == L.Held(r) && PidAlive(End(w, run), q)
  {
    hide IsRun, End, After, Can, Exclusive, Init;
    Entering(w, p, q, r);
    var a, e1 := Claims(w, p);
    Entering(e1, q, q, r);
    var b, e2 := Arrives(e1, q);
    var c, e3 := GivesUp(e2, p, w.next);
    var d, e4 := LocksOrphan(e3, q, w.next);
    Entering(e4, r, r, r);
    var f, e5 := Claims(e4, r);
    var g, e6 := IsLetIn(e5, q, w.next);
    var h, e7 := IsLetIn(e6, r, w.next + 1);
    run := Then(w, a, e1, b, e2);
    run := Then(w, run, e2, c, e3);
    run := Then(w, run, e3, d, e4);
    run := Then(w, run, e4, f, e5);
    run := Then(w, run, e5, g, e6);
    run := Then(w, run, e6, h, e7);
    before := e6;
    TwoIn(e7, q, r);
  }

  lemma Entering(w: World, p: Pid, q: Pid, r: Pid)
    ensures forall x :: x == p || x == q || x == r ==> (Can(w, Enter(x)) <==> x !in w.used && 0 < x <= L.I32_MAX)
    ensures Init(w) ==> w.locks == map[] && w.next !in w.records && w.next + 1 !in w.records && w.procs == map[]
  {
  }

  lemma TwoIn(w: World, q: Pid, r: Pid)
    requires At(w, q) && At(w, r) && w.procs[q].In? && w.procs[r].In? && q != r
    ensures !Exclusive(w)
  {
  }

  /** The gate excludes in every interleaving exactly when the directory exists before anyone looks. */
  lemma ExclusiveIffDirectoryExists(w: World, p: Pid, q: Pid, r: Pid)
    requires Init(w) && p != q && q != r && p != r
    requires Can(w, Enter(p)) && Can(w, Enter(q)) && Can(w, Enter(r))
    ensures (forall run :: IsRun(w, run) ==> Exclusive(End(w, run))) <==> w.path.Some?
  {
    if w.path.Some? {
      AnchoredStart(w);
      forall run | IsRun(w, run) ensures Exclusive(End(w, run)) {
        SettledRun(w, run);
        NoStrikeExcludes(w, run);
      }
    } else {
      var run, before := RemovalLetsTwoIn(w, p, q, r);
    }
  }
}
