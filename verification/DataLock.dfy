/** The data-directory write gate of `data_lock.rs`. */
module DataLock {
  import opened Wrappers

  /* Any number of processes claim sets of directories at once.  A claim is the kernel's advisory
  lock on the directory, taken without blocking; only its holder reads the lock record and
  decides; records are written after every directory of the set has been decided.  Each system
  call is one step here, so every interleaving of every process is a run. */

  /** A directory, by identity rather than by spelling. */
  type Dir = nat
  type Pid = nat

  const I32_MAX: nat := 0x7fff_ffff

  /** What `.core-lock` holds: nothing, the record of a process, or something else. */
  datatype Record = Absent | Held(pid: Pid) | Unreadable

  datatype Plan = Claimed(dir: Dir) | TookOver(dir: Dir) | Shared(dir: Dir)

  /** Where a process stands inside `acquire`. */
  datatype Phase =
    | Taking(i: nat)            // about to try the kernel lock of anchor `i`
    | AskingOwner(i: nat)       // somebody holds it: reading who, for the refusal or the hatch
    | Reading(i: nat)           // holder of the lock: reading the record
    | Probing(i: nat, q: Pid)   // the record names `q`: is it alive?
    | Writing(j: nat)           // every anchor decided: writing record `j`
    | Releasing                 // refused: giving the claims back
    | Refused
    | Acquired

  datatype Proc = Proc(
    anchors: seq<Dir>,
    hatch: bool,                // --allow-shared-data
    phase: Phase,
    plans: seq<Plan>,
    busy: bool,
    claims: set<Dir>,
    wrote: set<Dir>,            // directories whose record this process has written
    failedAt: Option<nat>)      // the record write that failed, if one did

  datatype World = World(
    locks: map<Dir, Pid>,       // kernel locks and their holders
    records: map<Dir, Record>,
    live: set<Pid>,
    used: set<Pid>,             // every pid ever handed out: none is reused
    procs: map<Pid, Proc>,      // the cores that entered this gate
    lockWorks: bool)            // the lock call never fails by itself

  function RecordOf(w: World, d: Dir): Record {
    if d in w.records then w.records[d] else Absent
  }

  predicate PidAlive(w: World, p: Pid) {
    0 < p <= I32_MAX && p in w.live
  }

  predicate NamesLive(w: World, d: Dir) {
    RecordOf(w, d).Held? && PidAlive(w, RecordOf(w, d).pid)
  }

  predicate At(w: World, p: Pid) {
    p in w.procs && p in w.live
  }

  // ---------- steps ----------

  datatype Step =
    | Start(p: Pid, anchors: seq<Dir>, hatch: bool)
    | Take(p: Pid, apiError: bool)
    | AskOwner(p: Pid)
    | Read(p: Pid)
    | Probe(p: Pid)
    | Write(p: Pid, ok: bool)
    | Release(p: Pid, dir: Dir)
    | Die(p: Pid)

  predicate Can(w: World, s: Step) {
    match s
    case Start(p, _, _) => p !in w.used && 0 < p <= I32_MAX
    case Die(p) => p in w.live
    case Take(p, apiError) => At(w, p) && w.procs[p].phase.Taking? && (apiError ==> !w.lockWorks)
                              && w.procs[p].phase.i < |w.procs[p].anchors|
    case AskOwner(p) => At(w, p) && w.procs[p].phase.AskingOwner? && w.procs[p].phase.i < |w.procs[p].anchors|
    case Read(p) => At(w, p) && w.procs[p].phase.Reading? && w.procs[p].phase.i < |w.procs[p].anchors|
    case Probe(p) => At(w, p) && w.procs[p].phase.Probing? && w.procs[p].phase.i < |w.procs[p].anchors|
    case Write(p, _) => At(w, p) && w.procs[p].phase.Writing? && w.procs[p].phase.j < |w.procs[p].plans|
    case Release(p, d) => At(w, p) && w.procs[p].phase.Releasing? && d in w.procs[p].claims
  }

  /** The phase after anchor `i` has been decided. */
  function Onward(pr: Proc, i: nat): Proc {
    pr.(phase := if i < |pr.anchors| then Taking(i) else if pr.busy then Quit(pr) else Wrote(pr, 0))
  }

  function Quit(pr: Proc): Phase {
    if pr.claims == {} then Refused else Releasing
  }

  function Wrote(pr: Proc, j: nat): Phase {
    if j < |pr.plans| then Writing(j) else Acquired
  }

  function Planned(pr: Proc, i: nat, plan: Plan): Proc {
    Onward(pr.(plans := pr.plans + [plan]), i + 1)
  }

  /** The directory is busy: the claim taken on it, if any, goes with the refusal. */
  function Busy(pr: Proc, i: nat, d: Dir): Proc {
    Onward(pr.(busy := true, claims := pr.claims - {d}), i + 1)
  }

  function Without(locks: map<Dir, Pid>, d: Dir, p: Pid): map<Dir, Pid> {
    map e | e in locks && !(e == d && locks[e] == p) :: locks[e]
  }

  function Set(w: World, p: Pid, pr: Proc): World {
    w.(procs := w.procs[p := pr])
  }

  function After(w: World, s: Step): World
    requires Can(w, s)
  {
    match s
    case Start(p, anchors, hatch) =>
      var pr := Proc(anchors, hatch, Taking(0), [], false, {}, {}, None);
      w.(live := w.live + {p}, used := w.used + {p}, procs := w.procs[p := Onward(pr, 0)])
    case Die(p) =>
      w.(live := w.live - {p}, locks := map d | d in w.locks && w.locks[d] != p :: w.locks[d])
    case Take(p, apiError) =>
      var pr := w.procs[p];
      var i := pr.phase.i;
      var d := pr.anchors[i];
      if apiError then
        if pr.hatch then Set(w, p, pr.(phase := Reading(i))) else Set(w, p, Onward(pr.(busy := true), i + 1))
      else if d in w.locks then Set(w, p, pr.(phase := AskingOwner(i)))
      else Set(w, p, pr.(phase := Reading(i), claims := pr.claims + {d})).(locks := w.locks[d := p])
    case AskOwner(p) =>
      var pr := w.procs[p];
      var i := pr.phase.i;
      var d := pr.anchors[i];
      if pr.hatch && RecordOf(w, d).Held? then Set(w, p, Planned(pr, i, Shared(d)))
      else Set(w, p, Onward(pr.(busy := true), i + 1))
    case Read(p) =>
      var pr := w.procs[p];
      var i := pr.phase.i;
      var d := pr.anchors[i];
      (match RecordOf(w, d)
       case Absent => Set(w, p, Planned(pr, i, Claimed(d)))
       case Held(q) => Set(w, p, pr.(phase := Probing(i, q)))
       case Unreadable =>
         if pr.hatch then Set(w, p, Planned(pr, i, TookOver(d)))
         else Set(w, p, Busy(pr, i, d)).(locks := Without(w.locks, d, p)))
    case Probe(p) =>
      var pr := w.procs[p];
      var i := pr.phase.i;
      var d := pr.anchors[i];
      if !PidAlive(w, pr.phase.q) then Set(w, p, Planned(pr, i, TookOver(d)))
      else if pr.hatch then Set(w, p, Planned(pr, i, Shared(d)))
      else Set(w, p, Busy(pr, i, d)).(locks := Without(w.locks, d, p))
    case Write(p, ok) =>
      var pr := w.procs[p];
      var j := pr.phase.j;
      var d := pr.plans[j].dir;
      if pr.plans[j].Shared? then Set(w, p, pr.(phase := Wrote(pr, j + 1)))
      else if !ok then Set(w, p, pr.(phase := Quit(pr), failedAt := Some(j)))
      else Set(w, p, pr.(phase := Wrote(pr, j + 1), wrote := pr.wrote + {d})).(records := w.records[d := Held(p)])
    case Release(p, d) =>
      var pr := w.procs[p];
      var less := pr.(claims := pr.claims - {d});
      Set(w, p, less.(phase := Quit(less))).(locks := Without(w.locks, d, p))
  }

  /** Nobody has entered the gate yet: records and live processes from older builds may exist. */
  ghost predicate Init(w: World) {
    && w.locks == map[] && w.procs == map[]
    && w.live <= w.used && (forall p :: p in w.live ==> 0 < p <= I32_MAX)
    && forall d :: d in w.records && w.records[d].Held? ==> w.records[d].pid in w.used
  }

  ghost predicate IsRun(w: World, run: seq<Step>)
    decreases |run|
  {
    run == [] || (Can(w, run[0]) && IsRun(After(w, run[0]), run[1..]))
  }

  ghost function End(w: World, run: seq<Step>): World
    requires IsRun(w, run)
    decreases |run|
  {
    if run == [] then w else End(After(w, run[0]), run[1..])
  }

  /** A core that was let in: it believes it is the writer of its directories. */
  predicate Holds(w: World, p: Pid) {
    At(w, p) && w.procs[p].phase.Acquired?
  }

  // ---------- the claims ----------

  /** How many anchors a process has decided. */
  function Decided(pr: Proc): nat {
    match pr.phase
    case Taking(i) => i
    case AskingOwner(i) => i
    case Reading(i) => i
    case Probing(i, _) => i
    case _ => |pr.anchors|
  }

  predicate Deciding(pr: Proc) {
    pr.phase.Taking? || pr.phase.AskingOwner? || pr.phase.Reading? || pr.phase.Probing?
  }

  /** The index of the anchor whose record the process is looking at. */
  predicate Looking(pr: Proc) {
    pr.phase.Reading? || pr.phase.Probing?
  }

  /** Phases and lists fit together. */
  predicate Shaped(pr: Proc) {
    && Decided(pr) <= |pr.anchors|
    && (Deciding(pr) ==> Decided(pr) < |pr.anchors|)
    && |pr.plans| <= Decided(pr)
    && (!pr.busy ==> |pr.plans| == Decided(pr) && forall k :: 0 <= k < |pr.plans| ==> pr.plans[k].dir == pr.anchors[k])
    && (pr.phase.Writing? ==> pr.phase.j < |pr.plans|)
    && (pr.phase.Writing? || pr.phase.Acquired? ==> !pr.busy)
    && (!pr.hatch ==> forall k :: 0 <= k < |pr.plans| ==> !pr.plans[k].Shared?)
  }

  /** A process without the hatch holds the claim of every anchor it found free. */
  predicate Owns(pr: Proc)
    requires Shaped(pr)
  {
    !pr.hatch ==>
      && (!pr.busy && !pr.phase.Releasing? && !pr.phase.Refused? ==>
            forall k :: 0 <= k < Decided(pr) ==> pr.anchors[k] in pr.claims)
      && (Looking(pr) ==> pr.anchors[Decided(pr)] in pr.claims)
  }

  /** Claims are exactly kernel locks, and only live processes hold them. */
  ghost predicate Sound(w: World) {
    && w.live <= w.used && w.procs.Keys <= w.used
    && (forall p :: p in w.live ==> 0 < p <= I32_MAX)
    && (forall d :: d in w.records && w.records[d].Held? ==> w.records[d].pid in w.used)
    && (forall d :: d in w.locks ==> At(w, w.locks[d]) && d in w.procs[w.locks[d]].claims)
    && (forall p, d :: At(w, p) && d in w.procs[p].claims ==> d in w.locks && w.locks[d] == p)
    && (forall p :: At(w, p) ==> Shaped(w.procs[p]) && Owns(w.procs[p]))
  }

  lemma SoundInit(w: World)
    requires Init(w)
    ensures Sound(w)
  {
  }

  lemma SoundSame(w: World, p: Pid, pr: Proc)
    requires Sound(w) && At(w, p) && pr.claims == w.procs[p].claims && Shaped(pr) && Owns(pr)
    ensures Sound(Set(w, p, pr))
  {
  }

  lemma SoundGrab(w: World, p: Pid, pr: Proc, d: Dir)
    requires Sound(w) && At(w, p) && d !in w.locks
    requires pr.claims == w.procs[p].claims + {d} && Shaped(pr) && Owns(pr)
    ensures Sound(Set(w, p, pr).(locks := w.locks[d := p]))
  {
  }

  lemma SoundDrop(w: World, p: Pid, pr: Proc, d: Dir)
    requires Sound(w) && At(w, p)
    requires pr.claims == w.procs[p].claims - {d} && Shaped(pr) && Owns(pr)
    ensures Sound(Set(w, p, pr).(locks := Without(w.locks, d, p)))
  {
  }

  lemma SoundRecord(w: World, d: Dir, p: Pid)
    requires Sound(w) && p in w.used
    ensures Sound(w.(records := w.records[d := Held(p)]))
  {
  }

  lemma OwnsOnward(pr: Proc)
    requires Shaped(pr) && Owns(pr) && Deciding(pr)
    ensures var i := Decided(pr);
            var d := pr.anchors[i];
            var dropped := Busy(pr, i, d);
            var blocked := Onward(pr.(busy := true), i + 1);
            && Shaped(dropped) && Owns(dropped) && Shaped(blocked) && Owns(blocked)
            && dropped.claims == pr.claims - {d} && blocked.claims == pr.claims
  {
  }

  lemma OwnsPlanned(pr: Proc, plan: Plan)
    requires Shaped(pr) && Owns(pr) && Deciding(pr)
    requires plan.dir == pr.anchors[Decided(pr)]
    requires !pr.hatch ==> plan.dir in pr.claims && !plan.Shared?
    ensures var pr' := Planned(pr, Decided(pr), plan);
            Shaped(pr') && Owns(pr') && pr'.claims == pr.claims
  {
  }

  lemma SoundTakeFailed(w: World, p: Pid)
    requires Sound(w) && Can(w, Take(p, true))
    ensures Sound(After(w, Take(p, true)))
  {
    var pr := w.procs[p];
    OwnsOnward(pr);
    SoundSame(w, p, After(w, Take(p, true)).procs[p]);
  }

  lemma SoundTake(w: World, p: Pid)
    requires Sound(w) && Can(w, Take(p, false))
    ensures Sound(After(w, Take(p, false)))
  {
    var pr := w.procs[p];
    var i, d := pr.phase.i, pr.anchors[pr.phase.i];
    if d in w.locks {
      SoundSame(w, p, pr.(phase := AskingOwner(i)));
    } else {
      var pr' := pr.(phase := Reading(i), claims := pr.claims + {d});
      assert Shaped(pr') && Owns(pr');
      SoundGrab(w, p, pr', d);
    }
  }

  lemma SoundAskOwner(w: World, p: Pid)
    requires Sound(w) && Can(w, AskOwner(p))
    ensures Sound(After(w, AskOwner(p)))
  {
    var pr := w.procs[p];
    OwnsOnward(pr);
    if pr.hatch {
      OwnsPlanned(pr, Shared(pr.anchors[pr.phase.i]));
    }
    SoundSame(w, p, After(w, AskOwner(p)).procs[p]);
  }

  lemma SoundRead(w: World, p: Pid)
    requires Sound(w) && Can(w, Read(p))
    ensures Sound(After(w, Read(p)))
  {
    var pr := w.procs[p];
    var i, d := pr.phase.i, pr.anchors[pr.phase.i];
    OwnsOnward(pr);
    match RecordOf(w, d)
    case Held(q) =>
      SoundSame(w, p, pr.(phase := Probing(i, q)));
    case Absent =>
      OwnsPlanned(pr, Claimed(d));
      SoundSame(w, p, Planned(pr, i, Claimed(d)));
    case Unreadable =>
      if pr.hatch {
        OwnsPlanned(pr, TookOver(d));
        SoundSame(w, p, Planned(pr, i, TookOver(d)));
      } else {
        SoundDrop(w, p, Busy(pr, i, d), d);
      }
  }

  lemma SoundProbe(w: World, p: Pid)
    requires Sound(w) && Can(w, Probe(p))
    ensures Sound(After(w, Probe(p)))
  {
    var pr := w.procs[p];
    var i, d := pr.phase.i, pr.anchors[pr.phase.i];
    OwnsOnward(pr);
    OwnsPlanned(pr, TookOver(d));
    if PidAlive(w, pr.phase.q) && !pr.hatch {
      SoundDrop(w, p, Busy(pr, i, d), d);
    } else {
      OwnsPlanned(pr, if PidAlive(w, pr.phase.q) then Shared(d) else TookOver(d));
      SoundSame(w, p, After(w, Probe(p)).procs[p]);
    }
  }

  lemma SoundWrite(w: World, p: Pid, ok: bool)
    requires Sound(w) && Can(w, Write(p, ok))
    ensures Sound(After(w, Write(p, ok)))
  {
    var pr := w.procs[p];
    var next := After(w, Write(p, ok)).procs[p];
    SoundSame(w, p, next);
    SoundRecord(Set(w, p, next), pr.plans[pr.phase.j].dir, p);
  }

  lemma SoundStart(w: World, p: Pid, anchors: seq<Dir>, hatch: bool)
    requires Sound(w) && Can(w, Start(p, anchors, hatch))
    ensures Sound(After(w, Start(p, anchors, hatch)))
  {
    var pr := After(w, Start(p, anchors, hatch)).procs[p];
    assert Shaped(pr) && Owns(pr) && pr.claims == {};
  }

  lemma SoundDie(w: World, p: Pid)
    requires Sound(w) && Can(w, Die(p))
    ensures Sound(After(w, Die(p)))
  {
  }

  lemma SoundStep(w: World, s: Step)
    requires Sound(w) && Can(w, s)
    ensures Sound(After(w, s))
  {
    match s
    case Start(p, anchors, hatch) => SoundStart(w, p, anchors, hatch);
    case Die(p) => SoundDie(w, p);
    case Take(p, apiError) => if apiError { SoundTakeFailed(w, p); } else { SoundTake(w, p); }
    case AskOwner(p) => SoundAskOwner(w, p);
    case Read(p) => SoundRead(w, p);
    case Probe(p) => SoundProbe(w, p);
    case Write(p, ok) => SoundWrite(w, p, ok);
    case Release(p, d) => SoundDrop(w, p, After(w, s).procs[p], d);
  }

  lemma {:induction false} SoundRun(w: World, run: seq<Step>)
    requires Sound(w) && IsRun(w, run)
    ensures Sound(End(w, run))
    decreases |run|
  {
    if run != [] {
      SoundStep(w, run[0]);
      SoundRun(After(w, run[0]), run[1..]);
    }
  }

  lemma HoldsLock(w: World, p: Pid, d: Dir)
    requires Sound(w) && Holds(w, p) && !w.procs[p].hatch && d in w.procs[p].anchors
    ensures d in w.locks && w.locks[d] == p
  {
    var k :| 0 <= k < |w.procs[p].anchors| && w.procs[p].anchors[k] == d;
    assert w.procs[p].anchors[k] in w.procs[p].claims;
  }

  /** Mutual exclusion.  After any interleaving, failing lock calls included, two live cores
  that were let in without the hatch have no directory in common, whatever cores with the
  hatch or from older builds do beside them. */
  lemma NoTwoWriters(w: World, run: seq<Step>, p: Pid, q: Pid)
    requires Init(w) && IsRun(w, run)
    requires var e := End(w, run);
             Holds(e, p) && Holds(e, q) && p != q && !e.procs[p].hatch && !e.procs[q].hatch
    ensures var e := End(w, run);
            forall d :: !(d in e.procs[p].anchors && d in e.procs[q].anchors)
  {
    SoundInit(w);
    SoundRun(w, run);
    var e := End(w, run);
    forall d | d in e.procs[p].anchors ensures d !in e.procs[q].anchors {
      HoldsLock(e, p, d);
      if d in e.procs[q].anchors {
        HoldsLock(e, q, d);
      }
    }
  }

  // ---------- the records ----------

  /** How many of its records a process has written. */
  function Written(pr: Proc): nat {
    match pr.phase
    case Writing(j) => j
    case Acquired => |pr.plans|
    case _ => 0
  }

  predicate GivingUp(pr: Proc) {
    pr.phase.Releasing? || pr.phase.Refused?
  }

  predicate Stale(w: World, d: Dir) {
    RecordOf(w, d).Held? ==> RecordOf(w, d).pid !in w.live
  }

  /** While the lock call works, a process looks at a record, and later rewrites it, only under
  the kernel lock of its directory; what it is about to rewrite names nobody alive. */
  ghost predicate Guarded(w: World, p: Pid, pr: Proc) {
    && Shaped(pr)
    && (Looking(pr) ==>
          var d := pr.anchors[Decided(pr)];
          d in pr.claims && forall k :: 0 <= k < |pr.plans| && !pr.plans[k].Shared? ==> pr.plans[k].dir != d)
    && (pr.phase.Probing? ==> RecordOf(w, pr.anchors[Decided(pr)]) == Held(pr.phase.q))
    && (!GivingUp(pr) ==>
          && (forall k :: 0 <= k < |pr.plans| && !pr.plans[k].Shared? ==> pr.plans[k].dir in pr.claims)
          && (forall k :: Written(pr) <= k < |pr.plans| && !pr.plans[k].Shared? ==> Stale(w, pr.plans[k].dir))
          && (forall k :: 0 <= k < Written(pr) && !pr.plans[k].Shared? ==> RecordOf(w, pr.plans[k].dir) == Held(p)))
    && (forall k, l :: 0 <= k < l < |pr.plans| && !pr.plans[k].Shared? && !pr.plans[l].Shared? ==>
          pr.plans[k].dir != pr.plans[l].dir)
  }

  ghost predicate Careful(w: World) {
    && Sound(w)
    && (w.lockWorks ==> forall p :: At(w, p) ==> Guarded(w, p, w.procs[p]))
  }

  /** Steps of others: they leave a process, and the records of the directories it claims, alone. */
  lemma GuardedFrame(w: World, w': World, p: Pid, pr: Proc)
    requires Guarded(w, p, pr)
    requires forall d :: d in pr.claims ==> RecordOf(w', d) == RecordOf(w, d)
    requires forall d :: d in pr.claims && Stale(w, d) ==> Stale(w', d)
    ensures Guarded(w', p, pr)
  {
  }

  lemma GuardedPlanned(w: World, p: Pid, pr: Proc, plan: Plan)
    requires Guarded(w, p, pr) && Deciding(pr) && plan.dir == pr.anchors[Decided(pr)]
    requires if plan.Shared? then pr.hatch else Looking(pr) && Stale(w, plan.dir)
    ensures Guarded(w, p, Planned(pr, Decided(pr), plan))
  {
  }

  lemma GuardedBlocked(w: World, p: Pid, pr: Proc)
    requires Guarded(w, p, pr) && Deciding(pr)
    ensures Guarded(w, p, Onward(pr.(busy := true), Decided(pr) + 1))
  {
  }

  lemma GuardedBusy(w: World, p: Pid, pr: Proc)
    requires Guarded(w, p, pr) && Looking(pr)
    ensures Guarded(w, p, Busy(pr, Decided(pr), pr.anchors[Decided(pr)]))
  {
  }

  lemma GuardedTake(w: World, p: Pid, pr: Proc, grab: bool)
    requires Guarded(w, p, pr) && pr.phase.Taking?
    requires grab ==> pr.anchors[pr.phase.i] !in pr.claims
    ensures var i := pr.phase.i;
            Guarded(w, p, if grab then pr.(phase := Reading(i), claims := pr.claims + {pr.anchors[i]})
                          else pr.(phase := AskingOwner(i)))
  {
  }

  lemma GuardedNamed(w: World, p: Pid, pr: Proc)
    requires Guarded(w, p, pr) && pr.phase.Reading? && RecordOf(w, pr.anchors[pr.phase.i]).Held?
    ensures Guarded(w, p, pr.(phase := Probing(pr.phase.i, RecordOf(w, pr.anchors[pr.phase.i]).pid)))
  {
  }

  lemma GuardedWritten(w: World, p: Pid, pr: Proc)
    requires Guarded(w, p, pr) && pr.phase.Writing?
    ensures var plan := pr.plans[pr.phase.j];
            Guarded(if plan.Shared? then w else w.(records := w.records[plan.dir := Held(p)]), p,
                    pr.(phase := Wrote(pr, pr.phase.j + 1), wrote := pr.wrote + {plan.dir}))
  {
    var plan := pr.plans[pr.phase.j];
    var w' := if plan.Shared? then w else w.(records := w.records[plan.dir := Held(p)]);
    assert forall d :: d != plan.dir ==> RecordOf(w', d) == RecordOf(w, d);
  }

  lemma GuardedAskOwner(w: World, p: Pid)
    requires Careful(w) && w.lockWorks && Can(w, AskOwner(p))
    ensures Guarded(After(w, AskOwner(p)), p, After(w, AskOwner(p)).procs[p])
  {
    hide Sound;
    hide Planned, Busy, Onward, Without;
    assert Guarded(w, p, w.procs[p]);
    var pr := w.procs[p];
    var w' := After(w, AskOwner(p));
    var d := pr.anchors[pr.phase.i];
    if pr.hatch && RecordOf(w, d).Held? {
      GuardedPlanned(w, p, pr, Shared(d));
    } else {
      GuardedBlocked(w, p, pr);
    }
    GuardedFrame(w, w', p, w'.procs[p]);
  }

  lemma GuardedWrite(w: World, p: Pid, ok: bool)
    requires Careful(w) && w.lockWorks && Can(w, Write(p, ok))
    ensures Guarded(After(w, Write(p, ok)), p, After(w, Write(p, ok)).procs[p])
  {
    hide Sound;
    hide Planned, Busy, Onward, Without;
    assert Guarded(w, p, w.procs[p]);
    var pr := w.procs[p];
    var w' := After(w, Write(p, ok));
    var plan := pr.plans[pr.phase.j];
    GuardedWritten(w, p, pr);
    if plan.Shared? {
      GuardedFrame(w, w', p, w'.procs[p]);
    } else if ok {
      GuardedFrame(w.(records := w.records[plan.dir := Held(p)]), w', p, w'.procs[p]);
    }
  }

  lemma GuardedTaken(w: World, p: Pid, apiError: bool)
    requires Careful(w) && w.lockWorks && Can(w, Take(p, apiError))
    ensures Guarded(After(w, Take(p, apiError)), p, After(w, Take(p, apiError)).procs[p])
  {
    assert forall d :: d in w.procs[p].claims ==> d in w.locks;
    hide Sound;
    assert Guarded(w, p, w.procs[p]);
    var pr := w.procs[p];
    GuardedTake(w, p, pr, pr.anchors[pr.phase.i] !in w.locks);
    GuardedFrame(w, After(w, Take(p, apiError)), p, After(w, Take(p, apiError)).procs[p]);
  }

  /** What a step does to the process that takes it. */
  lemma GuardedSelf(w: World, s: Step)
    requires Careful(w) && w.lockWorks && Can(w, s) && !s.Start? && !s.Die?
    ensures s.p in After(w, s).procs && Guarded(After(w, s), s.p, After(w, s).procs[s.p])
  {
    match s
    case Take(p, apiError) => GuardedTaken(w, p, apiError);
    case AskOwner(p) => GuardedAskOwner(w, p);
    case Read(p) => GuardedRead(w, p);
    case Probe(p) => GuardedProbe(w, p);
    case Write(p, ok) => GuardedWrite(w, p, ok);
    case Release(p, d) =>
  }

  lemma GuardedRead(w: World, p: Pid)
    requires Careful(w) && w.lockWorks && Can(w, Read(p))
    ensures Guarded(After(w, Read(p)), p, After(w, Read(p)).procs[p])
  {
    hide Sound;
    hide Planned, Busy, Onward, Without;
    assert Guarded(w, p, w.procs[p]);
    var pr := w.procs[p];
    var w' := After(w, Read(p));
    var d := pr.anchors[pr.phase.i];
    match RecordOf(w, d)
    case Held(q) => GuardedNamed(w, p, pr); GuardedFrame(w, w', p, w'.procs[p]);
    case Absent => GuardedPlanned(w, p, pr, Claimed(d)); GuardedFrame(w, w', p, w'.procs[p]);
    case Unreadable =>
      GuardedPlanned(w, p, pr, TookOver(d));
      GuardedBusy(w, p, pr);
      GuardedFrame(w, w', p, w'.procs[p]);
  }

  lemma GuardedProbe(w: World, p: Pid)
    requires Careful(w) && w.lockWorks && Can(w, Probe(p))
    ensures Guarded(After(w, Probe(p)), p, After(w, Probe(p)).procs[p])
  {
    assert forall q :: q in w.live ==> 0 < q <= I32_MAX;
    hide Sound;
    hide Planned, Busy, Onward, Without;
    assert Guarded(w, p, w.procs[p]);
    var pr := w.procs[p];
    var w' := After(w, Probe(p));
    var d := pr.anchors[pr.phase.i];
    if PidAlive(w, pr.phase.q) {
      if pr.hatch {
        GuardedPlanned(w, p, pr, Shared(d));
      }
      GuardedBusy(w, p, pr);
    } else {
      GuardedPlanned(w, p, pr, TookOver(d));
    }
    GuardedFrame(w, w', p, w'.procs[p]);
  }

  /** A record is rewritten by nobody but the holder of its directory's kernel lock. */
  lemma RecordsMoveUnderLock(w: World, s: Step, d: Dir)
    requires Careful(w) && w.lockWorks && Can(w, s) && RecordOf(After(w, s), d) != RecordOf(w, d)
    ensures s.Write? && At(w, s.p) && d in w.procs[s.p].claims && RecordOf(After(w, s), d) == Held(s.p)
    ensures d in w.locks && w.locks[d] == s.p
    ensures Stale(w, d)
  {
    var pr := w.procs[s.p];
    assert Guarded(w, s.p, pr);
    assert pr.plans[pr.phase.j].dir in pr.claims;
  }

  lemma RecordKept(w: World, s: Step, q: Pid, d: Dir)
    requires Careful(w) && w.lockWorks && Can(w, s) && q != s.p && At(w, q) && d in w.procs[q].claims
    ensures RecordOf(After(w, s), d) == RecordOf(w, d)
  {
    if RecordOf(After(w, s), d) != RecordOf(w, d) {
      RecordsMoveUnderLock(w, s, d);
    }
  }

  lemma StaleKept(w: World, s: Step, d: Dir)
    requires Sound(w) && Can(w, s) && Stale(w, d) && RecordOf(After(w, s), d) == RecordOf(w, d)
    ensures Stale(After(w, s), d)
  {
    assert After(w, s).live <= w.live + {s.p};
    assert s.Start? ==> s.p !in w.used;
  }

  /** What a step does to everybody else. */
  lemma GuardedOthers(w: World, s: Step, q: Pid)
    requires Careful(w) && w.lockWorks && Can(w, s) && q != s.p && At(w, q) && At(After(w, s), q)
    ensures After(w, s).procs[q] == w.procs[q] && Guarded(After(w, s), q, w.procs[q])
  {
    var w' := After(w, s);
    var pr := w.procs[q];
    OthersUnchanged(w, s, q);
    hide Guarded, After, Can, Sound, Stale;
    forall d | d in pr.claims ensures RecordOf(w', d) == RecordOf(w, d) && (Stale(w, d) ==> Stale(w', d)) {
      RecordKept(w, s, q, d);
      if Stale(w, d) {
        StaleKept(w, s, d);
      }
    }
    GuardedFrame(w, w', q, pr);
  }

  lemma CarefulProc(w: World, s: Step, q: Pid)
    requires Careful(w) && w.lockWorks && Can(w, s) && At(After(w, s), q)
    ensures Guarded(After(w, s), q, After(w, s).procs[q])
  {
    if q != s.p {
      GuardedOthers(w, s, q);
    } else if !s.Start? {
      GuardedSelf(w, s);
    }
  }

  lemma CarefulStep(w: World, s: Step)
    requires Careful(w) && Can(w, s)
    ensures Careful(After(w, s)) && After(w, s).lockWorks == w.lockWorks
  {
    SoundStep(w, s);
    if w.lockWorks {
      forall q | At(After(w, s), q) ensures Guarded(After(w, s), q, After(w, s).procs[q]) {
        CarefulProc(w, s, q);
      }
    }
  }

  lemma {:induction false} CarefulRun(w: World, run: seq<Step>)
    requires Careful(w) && IsRun(w, run)
    ensures Careful(End(w, run)) && End(w, run).lockWorks == w.lockWorks
    decreases |run|
  {
    if run != [] {
      CarefulStep(w, run[0]);
      CarefulRun(After(w, run[0]), run[1..]);
    }
  }

  /** The evidence survives: in any interleaving where the lock call works, hatch or no hatch,
  a step that changes a record replaces no record of a live process but the writer's own. */
  lemma LiveRecordKept(w: World, run: seq<Step>, s: Step, d: Dir)
    requires Init(w) && w.lockWorks && IsRun(w, run) && Can(End(w, run), s)
    requires RecordOf(End(w, run), d).Held? && RecordOf(End(w, run), d).pid in End(w, run).live
    ensures RecordOf(After(End(w, run), s), d) == RecordOf(End(w, run), d)
  {
    SoundInit(w);
    CarefulRun(w, run);
    var e := End(w, run);
    if RecordOf(After(e, s), d) != RecordOf(e, d) {
      RecordsMoveUnderLock(e, s, d);
    }
  }

  // ---------- what a refusal leaves behind ----------

  function DirsOf(plans: seq<Plan>): set<Dir> {
    set k | 0 <= k < |plans| && !plans[k].Shared? :: plans[k].dir
  }

  /** The records a process has written are those of its plan before the write it has reached. */
  ghost predicate Accounted(pr: Proc) {
    && (pr.failedAt.Some? ==> GivingUp(pr) && !pr.busy && pr.failedAt.value < |pr.plans|)
    && (GivingUp(pr) ==> pr.busy || pr.failedAt.Some?)
    && Written(pr) <= |pr.plans|
    && pr.wrote == DirsOf(pr.plans[..if pr.failedAt.Some? then pr.failedAt.value else Written(pr)])
  }

  lemma AccountedWrite(w: World, p: Pid, ok: bool)
    requires Sound(w) && Can(w, Write(p, ok)) && Accounted(w.procs[p])
    ensures Accounted(After(w, Write(p, ok)).procs[p])
  {
    var pr := w.procs[p];
    var j := pr.phase.j;
    assert pr.plans[..j + 1] == pr.plans[..j] + [pr.plans[j]];
    assert DirsOf(pr.plans[..j + 1]) == DirsOf(pr.plans[..j]) + (if pr.plans[j].Shared? then {} else {pr.plans[j].dir});
  }

  lemma AccountedOnward(pr: Proc, i: nat)
    requires Accounted(pr) && Deciding(pr)
    ensures Accounted(Onward(pr, i)) && Accounted(Onward(pr.(busy := true), i))
    ensures forall plan :: Accounted(Planned(pr, i, plan))
    ensures forall d :: Accounted(Busy(pr, i, d))
  {
    assert forall plans: seq<Plan> :: DirsOf(plans[..0]) == {};
  }

  lemma AccountedTake(w: World, p: Pid, apiError: bool)
    requires Can(w, Take(p, apiError)) && Accounted(w.procs[p])
    ensures Accounted(After(w, Take(p, apiError)).procs[p])
  {
    AccountedOnward(w.procs[p], w.procs[p].phase.i + 1);
  }

  lemma AccountedAskOwner(w: World, p: Pid)
    requires Can(w, AskOwner(p)) && Accounted(w.procs[p])
    ensures Accounted(After(w, AskOwner(p)).procs[p])
  {
    AccountedOnward(w.procs[p], w.procs[p].phase.i + 1);
    AccountedOnward(w.procs[p], w.procs[p].phase.i);
  }

  lemma AccountedRead(w: World, p: Pid)
    requires Can(w, Read(p)) && Accounted(w.procs[p])
    ensures Accounted(After(w, Read(p)).procs[p])
  {
    AccountedOnward(w.procs[p], w.procs[p].phase.i);
  }

  lemma AccountedProbe(w: World, p: Pid)
    requires Can(w, Probe(p)) && Accounted(w.procs[p])
    ensures Accounted(After(w, Probe(p)).procs[p])
  {
    AccountedOnward(w.procs[p], w.procs[p].phase.i);
  }

  lemma AccountedSelf(w: World, s: Step)
    requires Sound(w) && Can(w, s) && (s.p in w.procs ==> Accounted(w.procs[s.p])) && !s.Die?
    ensures Accounted(After(w, s).procs[s.p])
  {
    match s
    case Start(_, anchors, hatch) => AccountedOnward(Proc(anchors, hatch, Taking(0), [], false, {}, {}, None), 0);
    case Take(p, apiError) => AccountedTake(w, p, apiError);
    case AskOwner(p) => AccountedAskOwner(w, p);
    case Read(p) => AccountedRead(w, p);
    case Probe(p) => AccountedProbe(w, p);
    case Write(p, ok) => AccountedWrite(w, p, ok);
    case Release(_, _) =>
  }

  lemma OthersWait(w: World, s: Step, q: Pid)
    requires Can(w, s) && (s.Take? || s.AskOwner? || s.Read?) && q != s.p
    ensures q in After(w, s).procs <==> q in w.procs
    ensures q in w.procs ==> After(w, s).procs[q] == w.procs[q]
  {
    hide Planned, Busy, Onward, Without, RecordOf;
  }

  lemma OthersStay(w: World, s: Step, q: Pid)
    requires Can(w, s) && (s.Start? || s.Probe? || s.Write? || s.Release?) && q != s.p
    ensures q in After(w, s).procs <==> q in w.procs
    ensures q in w.procs ==> After(w, s).procs[q] == w.procs[q]
  {
    hide Planned, Busy, Onward, Wrote, Quit, Without, PidAlive;
  }

  lemma OthersUnchanged(w: World, s: Step, q: Pid)
    requires Can(w, s) && q in After(w, s).procs && (q != s.p || s.Die?)
    ensures q in w.procs && After(w, s).procs[q] == w.procs[q]
  {
    if !s.Die? {
      hide After;
      if s.Take? || s.AskOwner? || s.Read? {
        OthersWait(w, s, q);
      } else {
        OthersStay(w, s, q);
      }
    }
  }

  lemma AccountedStep(w: World, s: Step, q: Pid)
    requires Sound(w) && Can(w, s) && q in After(w, s).procs
    requires q in w.procs ==> Accounted(w.procs[q])
    ensures Accounted(After(w, s).procs[q])
  {
    if q != s.p || s.Die? {
      OthersUnchanged(w, s, q);
    } else {
      AccountedSelf(w, s);
    }
  }

  lemma {:induction false} AccountedRun(w: World, run: seq<Step>)
    requires Sound(w) && IsRun(w, run) && forall q :: q in w.procs ==> Accounted(w.procs[q])
    ensures forall q :: q in End(w, run).procs ==> Accounted(End(w, run).procs[q])
    decreases |run|
  {
    if run != [] {
      SoundStep(w, run[0]);
      forall q | q in After(w, run[0]).procs ensures Accounted(After(w, run[0]).procs[q]) {
        AccountedStep(w, run[0], q);
      }
      AccountedRun(After(w, run[0]), run[1..]);
    }
  }

  /** A record that a step changes is booked to the process that changed it. */
  lemma ChangesAreBooked(w: World, s: Step, d: Dir)
    requires Can(w, s) && RecordOf(After(w, s), d) != RecordOf(w, d)
    ensures s.p in After(w, s).procs && d in After(w, s).procs[s.p].wrote
  {
  }

  /** A refused core wrote no record anywhere, exactly unless a record write of its own failed
  after an earlier one of its plan had succeeded. */
  lemma RefusedWroteNothing(w: World, run: seq<Step>, p: Pid)
    requires Init(w) && IsRun(w, run) && p in End(w, run).procs && GivingUp(End(w, run).procs[p])
    ensures var pr := End(w, run).procs[p];
            pr.wrote == {} <==>
            pr.failedAt.None? || forall k :: 0 <= k < pr.failedAt.value && k < |pr.plans| ==> pr.plans[k].Shared?
  {
    SoundInit(w);
    AccountedRun(w, run);
    var pr := End(w, run).procs[p];
    if pr.failedAt.Some? {
      var n := pr.failedAt.value;
      forall k | 0 <= k < n && !pr.plans[k].Shared? ensures pr.plans[k].dir in pr.wrote {
        assert pr.plans[..n][k] == pr.plans[k];
      }
    }
  }

  /** Two directories, the second unwritable: the core is refused, yet the first directory keeps
  a record of it, and it is still alive to be named by it. */
  lemma PartialWriteLeavesRecord() returns (w: World, run: seq<Step>)
    ensures Init(w) && w.lockWorks && IsRun(w, run)
    ensures var e := End(w, run);
            At(e, 1) && GivingUp(e.procs[1]) && !e.procs[1].hatch && NamesLive(e, 0)
  {
    w := World(map[], map[], {}, {}, map[], true);
    run := Also(w, [], Start(1, [0, 1], false));
    var decide := DecideAll(End(w, run), 1);
    RunsCompose(w, run, decide);
    run := run + decide;
    run := Also(w, run, Write(1, true));
    run := Also(w, run, Write(1, false));
  }

  /** Two process ids still to be handed out. */
  predicate Unused(w: World, p: Pid, q: Pid) {
    p != q && p !in w.used && q !in w.used && 0 < p <= I32_MAX && 0 < q <= I32_MAX
  }

  /** A core with the hatch whose lock call fails reads the record under no lock. */
  lemma ReadsUnlocked(w: World, p: Pid, d: Dir) returns (run: seq<Step>)
    requires Can(w, Start(p, [d], true)) && !w.lockWorks && d !in w.records
    ensures IsRun(w, run)
    ensures End(w, run) == w.(live := w.live + {p}, used := w.used + {p},
                              procs := w.procs[p := Proc([d], true, Writing(0), [Claimed(d)], false, {}, {}, None)])
  {
    hide IsRun, End;
    NoSteps(w);
    run := Also(w, [], Start(p, [d], true));
    run := Also(w, run, Take(p, true));
    run := Also(w, run, Read(p));
    assert [] + [Claimed(d)] == [Claimed(d)];
    assert End(w, run).procs == w.procs[p := Proc([d], true, Writing(0), [Claimed(d)], false, {}, {}, None)];
  }

  /** Without a working lock call the hatch falls back on the record alone.  From every start, in any
  directory without a record, two cores can both find it absent: the second write replaces the record
  of the first, who is alive. */
  lemma BrokenLockLosesRecord(w: World, p: Pid, q: Pid, d: Dir) returns (run: seq<Step>)
    requires Init(w) && !w.lockWorks && Unused(w, p, q) && d !in w.records
    ensures IsRun(w, run) && Can(End(w, run), Write(q, true))
    ensures RecordOf(End(w, run), d) == Held(p) && NamesLive(End(w, run), d)
    ensures RecordOf(After(End(w, run), Write(q, true)), d) == Held(q)
  {
    hide IsRun, End, Init;
    run := ReadsUnlocked(w, p, d);
    var second := ReadsUnlocked(End(w, run), q, d);
    RunsCompose(w, run, second);
    run := run + second;
    run := Also(w, run, Write(p, true));
  }

  /** Some directory has no record. */
  lemma {:induction false} Above(ds: set<Dir>) returns (n: Dir)
    ensures forall d :: d in ds ==> d < n
    decreases |ds|
  {
    if ds == {} {
      n := 0;
    } else {
      var d :| d in ds;
      var m := Above(ds - {d});
      n := if d < m then m else d + 1;
      assert forall e :: e in ds ==> e == d || e in ds - {d};
    }
  }

  /** In every run, every step leaves the records of live processes alone. */
  ghost predicate KeepsLiveRecords(w: World) {
    forall run, s, d :: IsRun(w, run) && Can(End(w, run), s) ==> Keeps(End(w, run), s, d)
  }

  predicate Keeps(w: World, s: Step, d: Dir)
    requires Can(w, s)
  {
    RecordOf(w, d).Held? && RecordOf(w, d).pid in w.live ==> RecordOf(After(w, s), d) == RecordOf(w, d)
  }

  /** The evidence survives in every run exactly when the lock call works. */
  lemma LiveRecordsKeptIffLockWorks(w: World, p: Pid, q: Pid)
    requires Init(w) && Unused(w, p, q)
    ensures KeepsLiveRecords(w) <==> w.lockWorks
  {
    hide Can, After, IsRun, End, Init;
    if w.lockWorks {
      forall run, s, d | IsRun(w, run) && Can(End(w, run), s) ensures Keeps(End(w, run), s, d) {
        if RecordOf(End(w, run), d).Held? && RecordOf(End(w, run), d).pid in End(w, run).live {
          LiveRecordKept(w, run, s, d);
        }
      }
    } else {
      var d := Above(w.records.Keys);
      var run := BrokenLockLosesRecord(w, p, q, d);
      assert !Keeps(End(w, run), Write(q, true), d);
    }
  }

  lemma Also(w: World, run: seq<Step>, s: Step) returns (run': seq<Step>)
    requires IsRun(w, run) && Can(End(w, run), s)
    ensures IsRun(w, run') && End(w, run') == After(End(w, run), s)
  {
    RunOn(w, run, s);
    run' := run + [s];
  }

  // ---------- succession ----------

  /** Nothing stands in the way of a lone claimant. */
  predicate Free(w: World, d: Dir) {
    d !in w.locks && !RecordOf(w, d).Unreadable? && (RecordOf(w, d).Held? ==> !PidAlive(w, RecordOf(w, d).pid))
  }

  predicate Only(run: seq<Step>, p: Pid) {
    forall k :: 0 <= k < |run| ==> run[k].p == p
  }

  lemma {:induction false} RunsCompose(w: World, a: seq<Step>, b: seq<Step>)
    requires IsRun(w, a) && IsRun(End(w, a), b)
    ensures IsRun(w, a + b) && End(w, a + b) == End(End(w, a), b)
    decreases |a|
  {
    if a == [] {
      assert a + b == b;
    } else {
      assert (a + b)[1..] == a[1..] + b;
      RunsCompose(After(w, a[0]), a[1..], b);
    }
  }

  lemma NoSteps(w: World)
    ensures IsRun(w, []) && End(w, []) == w
  {
  }

  lemma RunOn(w: World, run: seq<Step>, s: Step)
    requires IsRun(w, run) && Can(End(w, run), s)
    ensures IsRun(w, run + [s]) && End(w, run + [s]) == After(End(w, run), s)
  {
    var e := End(w, run);
    assert [s][1..] == [];
    assert IsRun(e, [s]);
    RunsCompose(w, run, [s]);
  }

  /** The first system call on a free anchor: its lock is taken. */
  lemma TakeFree(w: World, p: Pid)
    requires At(w, p) && w.procs[p].phase.Taking? && w.procs[p].phase.i < |w.procs[p].anchors|
    requires Free(w, w.procs[p].anchors[w.procs[p].phase.i])
    ensures Can(w, Take(p, false))
    ensures var pr := w.procs[p];
            var d := pr.anchors[pr.phase.i];
            After(w, Take(p, false)) == Set(w, p, pr.(phase := Reading(pr.phase.i), claims := pr.claims + {d})).(locks := w.locks[d := p])
  {
  }

  /** The rest: the record is read, and its owner, if any, is found dead. */
  lemma JudgeFree(w: World, p: Pid) returns (run: seq<Step>, plan: Plan)
    requires At(w, p) && w.procs[p].phase.Reading? && w.procs[p].phase.i < |w.procs[p].anchors|
    requires var d := w.procs[p].anchors[w.procs[p].phase.i];
             !RecordOf(w, d).Unreadable? && !NamesLive(w, d)
    ensures IsRun(w, run) && Only(run, p)
    ensures var pr := w.procs[p];
            && plan.dir == pr.anchors[pr.phase.i] && !plan.Shared?
            && End(w, run) == Set(w, p, Planned(pr, pr.phase.i, plan))
  {
    hide IsRun, End;
    var pr := w.procs[p];
    var d := pr.anchors[pr.phase.i];
    NoSteps(w);
    RunOn(w, [], Read(p));
    run := [] + [Read(p)];
    if RecordOf(w, d).Held? {
      RunOn(w, run, Probe(p));
      run := run + [Probe(p)];
      plan := TookOver(d);
    } else {
      plan := Claimed(d);
    }
    assert End(w, run).procs == Set(w, p, Planned(pr, pr.phase.i, plan)).procs;
  }

  /** One free anchor, decided by a process that nobody disturbs. */
  lemma DecideFree(w: World, p: Pid) returns (run: seq<Step>, plan: Plan)
    requires At(w, p) && w.procs[p].phase.Taking? && w.procs[p].phase.i < |w.procs[p].anchors|
    requires Free(w, w.procs[p].anchors[w.procs[p].phase.i])
    ensures IsRun(w, run) && Only(run, p)
    ensures var pr := w.procs[p];
            var d := pr.anchors[pr.phase.i];
            && plan.dir == d && !plan.Shared?
            && End(w, run) == Set(w, p, Planned(pr.(claims := pr.claims + {d}), pr.phase.i, plan)).(locks := w.locks[d := p])
  {
    hide IsRun, End, Can, After;
    var pr := w.procs[p];
    var d := pr.anchors[pr.phase.i];
    TakeFree(w, p);
    NoSteps(w);
    RunOn(w, [], Take(p, false));
    var w1, first := After(w, Take(p, false)), [] + [Take(p, false)];
    var rest;
    rest, plan := JudgeFree(w1, p);
    RunsCompose(w, first, rest);
    run := first + rest;
    assert Planned(w1.procs[p], pr.phase.i, plan) == Planned(pr.(claims := pr.claims + {d}), pr.phase.i, plan);
    assert End(w, run).procs == Set(w, p, Planned(pr.(claims := pr.claims + {d}), pr.phase.i, plan)).procs;
  }

  predicate Distinct(s: seq<Dir>) {
    forall k, l :: 0 <= k < l < |s| ==> s[k] != s[l]
  }

  /** All remaining anchors free and distinct: the lone process decides every one of them. */
  lemma {:induction false} DecideAll(w: World, p: Pid) returns (run: seq<Step>)
    requires At(w, p) && w.procs[p].phase.Taking? && w.procs[p].phase.i < |w.procs[p].anchors|
    requires Shaped(w.procs[p]) && !w.procs[p].busy && Distinct(w.procs[p].anchors)
    requires forall k :: w.procs[p].phase.i <= k < |w.procs[p].anchors| ==> Free(w, w.procs[p].anchors[k])
    requires forall k :: 0 <= k < |w.procs[p].plans| ==> !w.procs[p].plans[k].Shared?
    ensures IsRun(w, run) && Only(run, p)
    ensures var e := End(w, run);
            && At(e, p) && e.records == w.records && e.live == w.live
            && e.procs[p].anchors == w.procs[p].anchors && e.procs[p].hatch == w.procs[p].hatch
            && e.procs[p].phase == Writing(0) && !e.procs[p].busy
            && |e.procs[p].plans| == |w.procs[p].anchors|
            && forall k :: 0 <= k < |e.procs[p].plans| ==> !e.procs[p].plans[k].Shared? && e.procs[p].plans[k].dir == w.procs[p].anchors[k]
    decreases |w.procs[p].anchors| - w.procs[p].phase.i
  {
    var i := w.procs[p].phase.i;
    var first, plan := DecideFree(w, p);
    var w1 := End(w, first);
    assert w1.procs[p].plans == w.procs[p].plans + [plan];
    run := first;
    if i + 1 < |w.procs[p].anchors| {
      forall k | i + 1 <= k < |w.procs[p].anchors| ensures Free(w1, w.procs[p].anchors[k]) {
        assert Free(w, w.procs[p].anchors[k]);
      }
      var rest := DecideAll(w1, p);
      RunsCompose(w, first, rest);
      run := first + rest;
    }
  }

  /** Every record writable: the lone process writes them all and is let in. */
  lemma {:induction false} WriteAll(w: World, p: Pid) returns (run: seq<Step>)
    requires At(w, p) && w.procs[p].phase.Writing? && w.procs[p].phase.j < |w.procs[p].plans|
    requires forall k :: 0 <= k < |w.procs[p].plans| ==> !w.procs[p].plans[k].Shared?
    requires forall k :: 0 <= k < w.procs[p].phase.j ==> RecordOf(w, w.procs[p].plans[k].dir) == Held(p)
    ensures IsRun(w, run) && Only(run, p) && Holds(End(w, run), p)
    ensures End(w, run).procs[p].anchors == w.procs[p].anchors
    ensures forall k :: 0 <= k < |w.procs[p].plans| ==> RecordOf(End(w, run), w.procs[p].plans[k].dir) == Held(p)
    decreases |w.procs[p].plans| - w.procs[p].phase.j
  {
    RunOn(w, [], Write(p, true));
    run := [] + [Write(p, true)];
    var w1 := End(w, run);
    if w1.procs[p].phase.Writing? {
      var rest := WriteAll(w1, p);
      RunsCompose(w, run, rest);
      run := run + rest;
    }
  }

  /** A lone claimant of free directories is let in and its records stand. */
  lemma LoneClaimantAdmitted(w: World, p: Pid, anchors: seq<Dir>) returns (run: seq<Step>)
    requires Can(w, Start(p, anchors, false)) && anchors != [] && Distinct(anchors)
    requires forall k :: 0 <= k < |anchors| ==> Free(w, anchors[k]) && RecordOf(w, anchors[k]) != Held(p)
    ensures IsRun(w, run) && Only(run, p) && Holds(End(w, run), p) && End(w, run).procs[p].anchors == anchors
    ensures forall k :: 0 <= k < |anchors| ==> RecordOf(End(w, run), anchors[k]) == Held(p)
  {
    RunOn(w, [], Start(p, anchors, false));
    var start := [] + [Start(p, anchors, false)];
    var w1 := End(w, start);
    forall k | 0 <= k < |anchors| ensures Free(w1, anchors[k]) {
      assert Free(w, anchors[k]);
    }
    var decide := DecideAll(w1, p);
    RunsCompose(w, start, decide);
    var w2 := End(w1, decide);
    var write := WriteAll(w2, p);
    RunsCompose(w, start + decide, write);
    run := start + decide + write;
    forall k | 0 <= k < |anchors| ensures RecordOf(End(w, run), anchors[k]) == Held(p) {
      assert w2.procs[p].plans[k].dir == anchors[k];
    }
  }

  /** A death gives back every claim, wherever inside `acquire` or after it: the directory is free
  exactly when its record is readable and names no live process. */
  lemma DeadLeavesFree(w: World, run: seq<Step>, h: Pid, d: Dir)
    requires Init(w) && IsRun(w, run) && At(End(w, run), h) && d in End(w, run).procs[h].claims
    ensures var dead := After(End(w, run), Die(h));
            Free(dead, d) <==> !RecordOf(dead, d).Unreadable? && !NamesLive(dead, d)
  {
    SoundInit(w);
    SoundRun(w, run);
  }

  /** Succession.  In every interleaving, failing lock calls included, once a process dies, with the
  hatch or without it and wherever it stood, a fresh core that claims directories the dead one had
  claimed, undisturbed, is let in: no clean-up pass, no waiting.  What can stand in its way is a
  record that cannot be read or that names somebody alive. */
  lemma DeadClaimantSucceeded(w: World, run: seq<Step>, h: Pid, p: Pid, want: seq<Dir>) returns (next: seq<Step>)
    requires Init(w) && IsRun(w, run) && At(End(w, run), h)
    requires p !in End(w, run).used && 0 < p <= I32_MAX && want != [] && Distinct(want)
    requires forall k :: 0 <= k < |want| ==> want[k] in End(w, run).procs[h].claims
    requires forall k :: 0 <= k < |want| ==>
               var dead := After(End(w, run), Die(h));
               !RecordOf(dead, want[k]).Unreadable? && !NamesLive(dead, want[k])
    ensures var dead := After(End(w, run), Die(h));
            && IsRun(dead, next) && Only(next, p) && Holds(End(dead, next), p)
            && End(dead, next).procs[p].anchors == want
            && forall k :: 0 <= k < |want| ==> RecordOf(End(dead, next), want[k]) == Held(p)
  {
    SoundInit(w);
    SoundRun(w, run);
    var e := End(w, run);
    var dead := After(e, Die(h));
    forall k | 0 <= k < |want| ensures Free(dead, want[k]) && RecordOf(dead, want[k]) != Held(p) {
      DeadLeavesFree(w, run, h, want[k]);
    }
    next := LoneClaimantAdmitted(dead, p, want);
  }

  /** Where the lock call works, nothing stands in the way of the successor of a core that was let in
  without the hatch. */
  lemma SuccessorAdmitted(w: World, run: seq<Step>, h: Pid, p: Pid) returns (next: seq<Step>)
    requires Init(w) && w.lockWorks && IsRun(w, run)
    requires Holds(End(w, run), h) && !End(w, run).procs[h].hatch && End(w, run).procs[h].anchors != []
    requires p !in End(w, run).used && 0 < p <= I32_MAX
    ensures var dead := After(End(w, run), Die(h));
            && IsRun(dead, next) && Only(next, p) && Holds(End(dead, next), p)
            && End(dead, next).procs[p].anchors == End(w, run).procs[h].anchors
  {
    SoundInit(w);
    CarefulRun(w, run);
    var e := End(w, run);
    var dead := After(e, Die(h));
    var pr := e.procs[h];
    assert Guarded(e, h, pr);
    forall k | 0 <= k < |pr.anchors|
      ensures pr.anchors[k] in pr.claims && RecordOf(dead, pr.anchors[k]) == Held(h)
    {
      assert pr.plans[k].dir == pr.anchors[k];
    }
    assert Distinct(pr.anchors) by {
      forall k, l | 0 <= k < l < |pr.anchors| ensures pr.anchors[k] != pr.anchors[l] {
        assert pr.plans[k].dir == pr.anchors[k] && pr.plans[l].dir == pr.anchors[l];
      }
    }
    next := DeadClaimantSucceeded(w, run, h, p, pr.anchors);
  }
}
