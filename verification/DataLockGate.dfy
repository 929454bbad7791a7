/** `acquire` of `data_lock.rs` as one core runs it. */
module DataLockGate {
  import opened Wrappers
  import opened DataLock

  /* Every system call the method makes is a step of the protocol in module `DataLock`, so what is
  proved there about interleavings is about this code; here the loops are shown to drive those
  steps, and what one undisturbed call does to the directories is stated outright. */

  datatype Refusal = DirsBusy(dirs: seq<Dir>) | RecordUnwritable(dir: Dir)

  /** The locks of `before`, plus `claims` for `p`. */
  ghost predicate LocksPlus(now: map<Dir, Pid>, before: map<Dir, Pid>, claims: set<Dir>, p: Pid) {
    && (forall d :: d in claims ==> d !in before && d in now && now[d] == p)
    && (forall d :: d !in claims ==> (d in now <==> d in before))
    && (forall d :: d in before && d in now ==> now[d] == before[d])
  }

  lemma LocksGrabbed(now: map<Dir, Pid>, before: map<Dir, Pid>, claims: set<Dir>, p: Pid, d: Dir)
    requires LocksPlus(now, before, claims, p) && d !in now
    ensures LocksPlus(now[d := p], before, claims + {d}, p)
  {
  }

  lemma LocksDropped(now: map<Dir, Pid>, before: map<Dir, Pid>, claims: set<Dir>, p: Pid, d: Dir)
    requires LocksPlus(now, before, claims, p) && d in claims
    ensures LocksPlus(Without(now, d, p), before, claims - {d}, p)
  {
  }

  lemma NothingClaimed(now: map<Dir, Pid>, before: map<Dir, Pid>, p: Pid)
    requires LocksPlus(now, before, {}, p)
    ensures now == before
  {
  }

  /** Phase 2 of the claim: the records once `plans[..n]` have been carried out. */
  function Recorded(records: map<Dir, Record>, plans: seq<Plan>, p: Pid): map<Dir, Record> {
    if plans == [] then records
    else
      var plan := plans[|plans| - 1];
      var before := Recorded(records, plans[..|plans| - 1], p);
      if plan.Shared? then before else before[plan.dir := Held(p)]
  }

  predicate Writes(plans: seq<Plan>, d: Dir) {
    exists k :: 0 <= k < |plans| && plans[k].dir == d && !plans[k].Shared?
  }

  /** Exactly the directories with a plan other than a share have their record rewritten, to name `p`. */
  ghost predicate Rewritten(before: map<Dir, Record>, records: map<Dir, Record>, plans: seq<Plan>, p: Pid) {
    forall d :: if Writes(plans, d) then d in records && records[d] == Held(p)
                else (d in records <==> d in before) && (d in before ==> records[d] == before[d])
  }

  lemma {:induction false} RecordedRewrites(records: map<Dir, Record>, plans: seq<Plan>, p: Pid)
    ensures Rewritten(records, Recorded(records, plans, p), plans, p)
    decreases |plans|
  {
    if plans != [] {
      var n := |plans| - 1;
      var plan := plans[n];
      RecordedRewrites(records, plans[..n], p);
      forall d ensures Writes(plans, d) <==> Writes(plans[..n], d) || (plan.dir == d && !plan.Shared?) {
        if k :| 0 <= k < |plans[..n]| && plans[..n][k].dir == d && !plans[..n][k].Shared? {
          assert plans[k].dir == d;
        }
        if k :| 0 <= k < |plans| && plans[k].dir == d && !plans[k].Shared? {
          assert k < n ==> plans[..n][k] == plans[k];
        }
      }
    }
  }

  /** Inside `acquire`: what the locals say is what the protocol records about this core. */
  ghost predicate Stands(w: World, start: World, p: Pid, anchors: seq<Dir>, hatch: bool, planned: seq<Plan>, busy: bool) {
    && At(w, p)
    && w.procs[p].anchors == anchors && w.procs[p].hatch == hatch
    && w.procs[p].plans == planned && w.procs[p].busy == busy
    && LocksPlus(w.locks, start.locks, w.procs[p].claims, p)
    && w.lockWorks == start.lockWorks
  }

  /** Between two anchors: nothing but locks has been touched. */
  ghost predicate Between(w: World, start: World, p: Pid, anchors: seq<Dir>, hatch: bool, planned: seq<Plan>, busy: bool, i: nat) {
    && Stands(w, start, p, anchors, hatch, planned, busy)
    && i <= |anchors| && w.procs[p] == Onward(w.procs[p], i)
    && w.records == start.records && w.live == start.live + {p}
  }

  /** Holder of the lock of anchor `i`, or without it under the hatch. */
  ghost predicate Inspecting(w: World, start: World, p: Pid, anchors: seq<Dir>, hatch: bool, planned: seq<Plan>, busy: bool, i: nat) {
    && Stands(w, start, p, anchors, hatch, planned, busy)
    && i < |anchors| && Looking(w.procs[p]) && Decided(w.procs[p]) == i
    && (!hatch ==> anchors[i] in w.procs[p].claims)
    && w.records == start.records && w.live == start.live + {p}
  }

  /** How one anchor's decision moves the locals. */
  function Push(planned: seq<Plan>, plan: Option<Plan>): seq<Plan> {
    if plan.Some? then planned + [plan.value] else planned
  }

  lemma Taken(w: World, start: World, p: Pid, anchors: seq<Dir>, hatch: bool, planned: seq<Plan>, busy: bool, i: nat)
    requires Between(w, start, p, anchors, hatch, planned, busy, i) && i < |anchors|
    ensures Can(w, Take(p, false)) && After(w, Take(p, false)).locks.Keys == w.locks.Keys + {anchors[i]}
    ensures var w' := After(w, Take(p, false));
            if anchors[i] in w.locks then
              Stands(w', start, p, anchors, hatch, planned, busy) && w'.procs[p].phase == AskingOwner(i)
              && w'.records == start.records && w'.live == start.live + {p} && w'.locks == w.locks
            else Inspecting(w', start, p, anchors, hatch, planned, busy, i) && w'.procs[p].phase == Reading(i)
                 && w'.procs[p].claims == w.procs[p].claims + {anchors[i]}
  {
    if anchors[i] !in w.locks {
      LocksGrabbed(w.locks, start.locks, w.procs[p].claims, p, anchors[i]);
    }
  }

  lemma TakeFailed(w: World, start: World, p: Pid, anchors: seq<Dir>, hatch: bool, planned: seq<Plan>, busy: bool, i: nat)
    requires Between(w, start, p, anchors, hatch, planned, busy, i) && i < |anchors| && !w.lockWorks
    ensures Can(w, Take(p, true))
    ensures var w' := After(w, Take(p, true));
            if hatch then Inspecting(w', start, p, anchors, hatch, planned, busy, i) && w'.procs[p].phase == Reading(i)
            else Between(w', start, p, anchors, hatch, planned, true, i + 1)
  {
  }

  lemma Asked(w: World, start: World, p: Pid, anchors: seq<Dir>, hatch: bool, planned: seq<Plan>, busy: bool, i: nat)
    requires Stands(w, start, p, anchors, hatch, planned, busy) && i < |anchors|
    requires w.procs[p].phase == AskingOwner(i) && w.records == start.records && w.live == start.live + {p}
    ensures Can(w, AskOwner(p))
    ensures var plan := if hatch && RecordOf(w, anchors[i]).Held? then Some(Shared(anchors[i])) else None;
            Between(After(w, AskOwner(p)), start, p, anchors, hatch, Push(planned, plan), busy || plan.None?, i + 1)
  {
  }

  lemma DecidedAs(w: World, start: World, p: Pid, anchors: seq<Dir>, hatch: bool, planned: seq<Plan>, busy: bool, i: nat, plan: Plan)
    requires Inspecting(w, start, p, anchors, hatch, planned, busy, i)
    ensures Between(Set(w, p, Planned(w.procs[p], i, plan)), start, p, anchors, hatch, planned + [plan], busy, i + 1)
  {
  }

  lemma DecidedBusy(w: World, start: World, p: Pid, anchors: seq<Dir>, planned: seq<Plan>, busy: bool, i: nat)
    requires Inspecting(w, start, p, anchors, false, planned, busy, i)
    ensures var d := anchors[i];
            Between(Set(w, p, Busy(w.procs[p], i, d)).(locks := Without(w.locks, d, p)),
                    start, p, anchors, false, planned, true, i + 1)
  {
    LocksDropped(w.locks, start.locks, w.procs[p].claims, p, anchors[i]);
  }

  /** An anchor nothing speaks against: free, lockable, and not spelled twice. */
  ghost predicate Admissible(start: World, anchors: seq<Dir>, apiFails: set<Dir>, k: nat)
    requires k < |anchors|
  {
    anchors[k] !in apiFails && Free(start, anchors[k]) && forall l :: 0 <= l < k ==> anchors[l] != anchors[k]
  }

  ghost predicate AllAdmissible(start: World, anchors: seq<Dir>, apiFails: set<Dir>, n: nat)
    requires n <= |anchors|
  {
    forall k :: 0 <= k < n ==> Admissible(start, anchors, apiFails, k)
  }

  /** While everything has been admissible, exactly the anchors so far are claimed, and the next
  one is decided on what it was at the start. */
  lemma NextIsAdmissible(w: World, start: World, p: Pid, anchors: seq<Dir>, planned: seq<Plan>, i: nat, apiFails: set<Dir>)
    requires Sound(start) && p !in start.used
    requires Between(w, start, p, anchors, false, planned, false, i) && i < |anchors|
    requires AllAdmissible(start, anchors, apiFails, i)
    requires forall d :: d in w.procs[p].claims <==> d in anchors[..i]
    ensures Admissible(start, anchors, apiFails, i) <==> anchors[i] !in apiFails && Free(w, anchors[i])
  {
    var d := anchors[i];
    assert RecordOf(w, d) == RecordOf(start, d);
    assert RecordOf(w, d).Held? ==> RecordOf(w, d).pid != p;
    if d in anchors[..i] {
      var l :| 0 <= l < i && anchors[l] == d;
    }
  }

  /** Without the hatch: nothing is busy exactly while everything was admissible, and then the
  claims are the anchors decided so far. */
  ghost predicate Claiming(w: World, start: World, p: Pid, anchors: seq<Dir>, apiFails: set<Dir>, i: nat, clear: bool) {
    && p in w.procs && i <= |anchors|
    && (clear <==> AllAdmissible(start, anchors, apiFails, i))
    && (clear ==> forall d :: d in w.procs[p].claims <==> d in anchors[..i])
  }

  lemma ClaimingNext(w: World, w': World, start: World, p: Pid, anchors: seq<Dir>, planned: seq<Plan>, busy: bool, i: nat,
                     apiFails: set<Dir>, plan: Option<Plan>)
    requires Sound(start) && p !in start.used && Claiming(w, start, p, anchors, apiFails, i, !busy)
    requires Between(w, start, p, anchors, false, planned, busy, i) && i < |anchors|
    requires plan.Some? <==> anchors[i] !in apiFails && Free(w, anchors[i])
    requires p in w'.procs && (plan.Some? ==> w'.procs[p].claims == w.procs[p].claims + {anchors[i]})
    ensures Claiming(w', start, p, anchors, apiFails, i + 1, !busy && plan.Some?)
  {
    if !busy {
      NextIsAdmissible(w, start, p, anchors, planned, i, apiFails);
      assert anchors[..i + 1] == anchors[..i] + [anchors[i]];
    }
    assert AllAdmissible(start, anchors, apiFails, i + 1) <==>
           AllAdmissible(start, anchors, apiFails, i) && Admissible(start, anchors, apiFails, i);
  }

  /** A process that is writing records, having carried out the plan up to `j`. */
  ghost predicate Recording(w: World, start: World, p: Pid, anchors: seq<Dir>, hatch: bool, planned: seq<Plan>, j: nat) {
    && Stands(w, start, p, anchors, hatch, planned, false)
    && j <= |planned| && w.procs[p].phase == Wrote(w.procs[p], j)
    && w.records == Recorded(start.records, planned[..j], p)
  }

  lemma WroteRecord(w: World, start: World, p: Pid, anchors: seq<Dir>, hatch: bool, planned: seq<Plan>, j: nat, ok: bool)
    requires Recording(w, start, p, anchors, hatch, planned, j) && j < |planned|
    ensures Can(w, Write(p, ok))
    ensures var w' := After(w, Write(p, ok));
            && w'.procs[p].claims == w.procs[p].claims
            && if ok || planned[j].Shared? then Recording(w', start, p, anchors, hatch, planned, j + 1)
               else Stands(w', start, p, anchors, hatch, planned, false)
                    && w'.procs[p].phase == Quit(w'.procs[p]) && w'.records == w.records
  {
    assert planned[..j + 1][..j] == planned[..j];
    assert planned[..j + 1][j] == planned[j];
  }

  lemma Released(w: World, start: World, p: Pid, anchors: seq<Dir>, hatch: bool, planned: seq<Plan>, busy: bool, d: Dir)
    requires Stands(w, start, p, anchors, hatch, planned, busy)
    requires w.procs[p].phase == Quit(w.procs[p]) && d in w.procs[p].claims
    ensures Can(w, Release(p, d))
    ensures var w' := After(w, Release(p, d));
            && Stands(w', start, p, anchors, hatch, planned, busy) && w'.records == w.records
            && w'.procs[p].phase == Quit(w'.procs[p]) && w'.procs[p].claims == w.procs[p].claims - {d}
  {
    LocksDropped(w.locks, start.locks, w.procs[p].claims, p, d);
  }

  /** What a decision to go ahead was: a claim of a directory without a record, a takeover of a record that
  is unreadable or names a dead process, or a share with the process the record names, which is alive or
  somebody else's claim on the directory speaks for it. */
  predicate PlanFits(w: World, d: Dir, taken: bool, plan: Plan) {
    var record := RecordOf(w, d);
    && plan.dir == d
    && (plan.Claimed? <==> record.Absent?)
    && (plan.TookOver? <==> record.Unreadable? || (record.Held? && !PidAlive(w, record.pid) && !taken))
    && (plan.Shared? <==> record.Held? && (PidAlive(w, record.pid) || taken))
  }

  /** Anchor `k` finds its directory claimed: by somebody else, or by this call under an earlier spelling. */
  predicate FoundTaken(start: World, anchors: seq<Dir>, apiFails: set<Dir>, k: nat)
    requires k < |anchors|
  {
    anchors[k] !in apiFails && (anchors[k] in start.locks || anchors[k] in anchors[..k])
  }

  ghost predicate PlansFit(start: World, anchors: seq<Dir>, apiFails: set<Dir>, plans: seq<Plan>) {
    |plans| <= |anchors| && forall k :: 0 <= k < |plans| ==> PlanFits(start, anchors[k], FoundTaken(start, anchors, apiFails, k), plans[k])
  }

  /** The locks there are once `i` anchors have been gone ahead with. */
  ghost predicate LocksAfter(w: World, start: World, anchors: seq<Dir>, apiFails: set<Dir>, i: nat)
    requires i <= |anchors|
  {
    forall d :: d in w.locks <==> d in start.locks || (d in anchors[..i] && d !in apiFails)
  }

  lemma FewerFit(start: World, anchors: seq<Dir>, apiFails: set<Dir>, plans: seq<Plan>, n: nat)
    requires PlansFit(start, anchors, apiFails, plans) && n <= |plans|
    ensures PlansFit(start, anchors, apiFails, plans[..n])
  {
    hide PlanFits, FoundTaken;
  }

  lemma NothingPlanned(w: World, start: World, p: Pid, anchors: seq<Dir>, hatch: bool, apiFails: set<Dir>)
    requires Between(w, start, p, anchors, hatch, [], false, 0) && w.procs[p].claims == {}
    ensures At(w, p) && w.lockWorks == start.lockWorks && Claiming(w, start, p, anchors, apiFails, 0, true)
    ensures PlansFit(start, anchors, apiFails, []) && LocksAfter(w, start, anchors, apiFails, 0)
  {
  }

  lemma PlansFitNext(w: World, w': World, start: World, p: Pid, anchors: seq<Dir>, hatch: bool, planned: seq<Plan>, busy: bool, i: nat,
                     apiFails: set<Dir>, plan: Plan)
    requires Sound(start) && p !in start.used && Between(w, start, p, anchors, hatch, planned, busy, i) && i < |anchors|
    requires |planned| == i && PlansFit(start, anchors, apiFails, planned) && LocksAfter(w, start, anchors, apiFails, i)
    requires PlanFits(w, anchors[i], anchors[i] !in apiFails && anchors[i] in w.locks, plan)
    requires w'.locks.Keys == w.locks.Keys + if anchors[i] in apiFails then {} else {anchors[i]}
    ensures PlansFit(start, anchors, apiFails, planned + [plan]) && LocksAfter(w', start, anchors, apiFails, i + 1)
  {
    var d := anchors[i];
    assert anchors[..i + 1] == anchors[..i] + [d];
    assert RecordOf(w, d) == RecordOf(start, d);
    if RecordOf(start, d).Held? {
      var q := RecordOf(start, d).pid;
      assert q in start.used;
      assert PidAlive(w, q) <==> PidAlive(start, q);
    }
    assert PlanFits(start, d, FoundTaken(start, anchors, apiFails, i), plan);
  }

  /** A process that has just started stands before its first directory, holding nothing. */
  lemma Started(w: World, p: Pid, anchors: seq<Dir>, hatch: bool)
    requires Can(w, Start(p, anchors, hatch))
    ensures Between(After(w, Start(p, anchors, hatch)), w, p, anchors, hatch, [], false, 0)
    ensures After(w, Start(p, anchors, hatch)).procs[p].claims == {}
  {
  }

  /** A core running `acquire`: every system call it makes is a step of the world. */
  class Gate {
    const pid: Pid
    var world: World
    ghost const start: World
    ghost var run: seq<Step>

    ghost predicate Valid()
      reads this
    {
      IsRun(start, run) && Only(run, pid) && End(start, run) == world
    }

    constructor (pid: Pid, world: World)
      ensures Valid() && this.pid == pid && this.world == world && start == world && run == []
    {
      this.pid, this.world := pid, world;
      start, run := world, [];
    }

    method Call(s: Step)
      requires Valid() && s.p == pid && Can(world, s)
      modifies this
      ensures Valid() && world == After(old(world), s)
    {
      RunOn(start, run, s);
      world := After(world, s);
      run := run + [s];
    }

    /** The holder of the kernel lock reads the record and decides. */
    method ReadAndDecide(anchors: seq<Dir>, hatch: bool, ghost planned: seq<Plan>, ghost busy: bool, i: nat)
      returns (plan: Option<Plan>)
      requires Valid() && Inspecting(world, start, pid, anchors, hatch, planned, busy, i)
      requires world.procs[pid].phase == Reading(i)
      modifies this
      ensures Valid() && Between(world, start, pid, anchors, hatch, Push(planned, plan), busy || plan.None?, i + 1)
      ensures plan.Some? ==> plan.value.dir == anchors[i] && (plan.value.Shared? ==> hatch)
      ensures plan.Some? ==> world.procs[pid].claims == old(world.procs[pid].claims)
      ensures plan.Some? <==> hatch || !(RecordOf(world, anchors[i]).Unreadable? || NamesLive(world, anchors[i]))
      ensures plan.Some? ==> world.locks == old(world.locks) && PlanFits(old(world), anchors[i], false, plan.value)
    {
      hide LocksPlus, IsRun, End, Only;
      var d := anchors[i];
      var record := RecordOf(world, d);
      match record {
        case Absent => plan := Some(Claimed(d));
        case Unreadable => plan := if hatch then Some(TookOver(d)) else None;
        case Held(q) =>
          Call(Read(pid));
          var alive := PidAlive(world, q);
          plan := if !alive then Some(TookOver(d)) else if hatch then Some(Shared(d)) else None;
      }
      if plan.Some? {
        DecidedAs(world, start, pid, anchors, hatch, planned, busy, i, plan.value);
      } else {
        DecidedBusy(world, start, pid, anchors, planned, busy, i);
      }
      Call(if record.Held? then Probe(pid) else Read(pid));
    }

    /** One anchor: the kernel lock first, and only its holder reads the record and decides. */
    method Decide(anchors: seq<Dir>, hatch: bool, ghost planned: seq<Plan>, ghost busy: bool, i: nat, apiFails: bool)
      returns (plan: Option<Plan>)
      requires Valid() && Between(world, start, pid, anchors, hatch, planned, busy, i) && i < |anchors|
      requires apiFails ==> !world.lockWorks
      modifies this
      ensures Valid() && Between(world, start, pid, anchors, hatch, Push(planned, plan), busy || plan.None?, i + 1)
      ensures plan.Some? ==> plan.value.dir == anchors[i] && (plan.value.Shared? ==> hatch)
      ensures !hatch ==> (plan.Some? <==> !apiFails && Free(old(world), anchors[i]))
      ensures !hatch && plan.Some? ==> world.procs[pid].claims == old(world.procs[pid].claims) + {anchors[i]}
      ensures plan.Some? ==> PlanFits(old(world), anchors[i], !apiFails && anchors[i] in old(world.locks), plan.value)
      ensures At(world, pid) && world.lockWorks == start.lockWorks
      ensures plan.Some? ==> world.locks.Keys == old(world.locks.Keys) + if apiFails then {} else {anchors[i]}
    {
      if apiFails {
        TakeFailed(world, start, pid, anchors, hatch, planned, busy, i);
        Call(Take(pid, true));
        if !hatch {
          return None;
        }
      } else {
        Taken(world, start, pid, anchors, hatch, planned, busy, i);
        Call(Take(pid, false));
      }
      if world.procs[pid].phase.AskingOwner? {
        var owner := RecordOf(world, anchors[i]);
        Asked(world, start, pid, anchors, hatch, planned, busy, i);
        Call(AskOwner(pid));
        return if hatch && owner.Held? then Some(Shared(anchors[i])) else None;
      }
      plan := ReadAndDecide(anchors, hatch, planned, busy, i);
    }

    /** The refusal: every claim is given back. */
    method ReleaseAll(ghost anchors: seq<Dir>, ghost hatch: bool, ghost planned: seq<Plan>, ghost busy: bool)
      requires Valid() && Stands(world, start, pid, anchors, hatch, planned, busy)
      requires world.procs[pid].phase == Quit(world.procs[pid])
      modifies this
      ensures Valid() && world.locks == start.locks && world.records == old(world.records)
      ensures At(world, pid) && world.procs[pid].phase.Refused?
    {
      var claims := world.procs[pid].claims;
      while claims != {}
        invariant Valid() && Stands(world, start, pid, anchors, hatch, planned, busy)
        invariant world.procs[pid].phase == Quit(world.procs[pid]) && world.procs[pid].claims == claims
        invariant world.records == old(world.records)
        decreases claims
      {
        var d :| d in claims;
        Released(world, start, pid, anchors, hatch, planned, busy, d);
        Call(Release(pid, d));
        claims := claims - {d};
      }
      NothingClaimed(world.locks, start.locks, pid);
    }

    /** Phase 1: every anchor decided, every kernel lock taken, no record written. */
    method DecideEach(anchors: seq<Dir>, hatch: bool, apiFails: set<Dir>) returns (planned: seq<Plan>, busy: seq<Dir>)
      requires Valid() && Sound(start) && pid !in start.used
      requires Between(world, start, pid, anchors, hatch, [], false, 0) && world.procs[pid].claims == {}
      requires apiFails == {} || !world.lockWorks
      modifies this
      ensures Valid() && Between(world, start, pid, anchors, hatch, planned, busy != [], |anchors|)
      ensures busy == [] ==> |planned| == |anchors| && forall k :: 0 <= k < |anchors| ==> planned[k].dir == anchors[k]
      ensures !hatch ==> (busy == [] <==> AllAdmissible(start, anchors, apiFails, |anchors|))
      ensures !hatch && busy == [] ==> world.procs[pid].claims == (set d | d in anchors)
      ensures busy == [] ==> PlansFit(start, anchors, apiFails, planned)
    {
      hide Sound, After, End, PlanFits, PlansFit, LocksAfter, LocksPlus, Free, Between, Admissible;
      NothingPlanned(world, start, pid, anchors, hatch, apiFails);
      planned, busy := [], [];
      var i := 0;
      while i < |anchors|
        invariant 0 <= i <= |anchors|
        invariant Valid() && Between(world, start, pid, anchors, hatch, planned, busy != [], i)
        invariant At(world, pid) && world.lockWorks == start.lockWorks
        invariant busy == [] ==> |planned| == i && forall k :: 0 <= k < i ==> planned[k].dir == anchors[k]
        invariant !hatch ==> Claiming(world, start, pid, anchors, apiFails, i, busy == [])
        invariant busy == [] ==> PlansFit(start, anchors, apiFails, planned) && LocksAfter(world, start, anchors, apiFails, i)
      {
        ghost var before := world;
        var plan := Decide(anchors, hatch, planned, busy != [], i, anchors[i] in apiFails);
        if !hatch {
          ClaimingNext(before, world, start, pid, anchors, planned, busy != [], i, apiFails, plan);
        }
        if busy == [] && plan.Some? {
          PlansFitNext(before, world, start, pid, anchors, hatch, planned, false, i, apiFails, plan.value);
        }
        match plan {
          case Some(step) => planned := planned + [step];
          case None => busy := busy + [anchors[i]];
        }
        i := i + 1;
      }
      assert anchors[..|anchors|] == anchors;
    }

    /** Phase 2: the record of every plan, up to the first that cannot be written. */
    method WriteRecords(ghost anchors: seq<Dir>, ghost hatch: bool, planned: seq<Plan>, unwritable: set<Dir>) returns (j: nat)
      requires Valid() && Recording(world, start, pid, anchors, hatch, planned, 0)
      modifies this
      ensures Valid() && j <= |planned| && At(world, pid) && world.procs[pid].claims == old(world.procs[pid].claims)
      ensures j == |planned| ==> Recording(world, start, pid, anchors, hatch, planned, j)
      ensures j < |planned| ==>
                && planned[j].dir in unwritable && world.procs[pid].phase == Quit(world.procs[pid])
                && Stands(world, start, pid, anchors, hatch, planned, false) && world.records == Recorded(start.records, planned[..j], pid)
    {
      hide After, LocksPlus;
      j := 0;
      while j < |planned|
        invariant 0 <= j <= |planned|
        invariant Valid() && Recording(world, start, pid, anchors, hatch, planned, j)
        invariant world.procs[pid].claims == old(world.procs[pid].claims)
      {
        var ok := planned[j].dir !in unwritable;
        WroteRecord(world, start, pid, anchors, hatch, planned, j, ok);
        Call(Write(pid, ok));
        if !ok && !planned[j].Shared? {
          return;
        }
        j := j + 1;
      }
    }

    /** Claims every anchored directory, or refuses.  A refusal gives every lock back, and one
    from phase 1 leaves the directories exactly as they were; a core let in without the hatch
    holds the lock of every anchor; every record of the plan, and no other, is rewritten. */
    method Acquire(anchors: seq<Dir>, hatch: bool, apiFails: set<Dir>, unwritable: set<Dir>)
      returns (r: Result<seq<Plan>, Refusal>)
      requires Valid() && run == [] && Sound(world) && Can(world, Start(pid, anchors, hatch))
      requires apiFails == {} || !world.lockWorks
      modifies this
      ensures Valid() && At(world, pid)
      ensures r.Ok? <==> Holds(world, pid)
      ensures r.Ok? ==>
                && |r.value| == |anchors| && (forall k :: 0 <= k < |anchors| ==> r.value[k].dir == anchors[k])
                && PlansFit(start, anchors, apiFails, r.value) && Rewritten(start.records, world.records, r.value, pid)
                && world.records == Recorded(start.records, r.value, pid)
                && LocksPlus(world.locks, start.locks, world.procs[pid].claims, pid)
                && (!hatch ==> world.procs[pid].claims == set d | d in anchors)
      ensures r.Err? ==> world.locks == start.locks
      ensures r.Err? && r.error.DirsBusy? ==> world.records == start.records
      ensures !hatch ==>
                (r.Err? && r.error.DirsBusy? <==> !AllAdmissible(start, anchors, apiFails, |anchors|))
      ensures r.Err? && r.error.RecordUnwritable? ==>
                r.error.dir in unwritable && r.error.dir in anchors
                && exists plans: seq<Plan> ::
                     && |plans| < |anchors| && anchors[|plans|] == r.error.dir
                     && PlansFit(start, anchors, apiFails, plans) && Rewritten(start.records, world.records, plans, pid)
    {
      hide Sound, After, PlansFit, Rewritten;
      assert End(start, run) == start;
      Started(world, pid, anchors, hatch);
      Call(Start(pid, anchors, hatch));
      var planned, busy := DecideEach(anchors, hatch, apiFails);
      if busy != [] {
        ReleaseAll(anchors, hatch, planned, true);
        return Err(DirsBusy(busy));
      }
      var j := WriteRecords(anchors, hatch, planned, unwritable);
      if j < |planned| {
        RecordedRewrites(start.records, planned[..j], pid);
        FewerFit(start, anchors, apiFails, planned, j);
        ReleaseAll(anchors, hatch, planned, false);
        return Err(RecordUnwritable(planned[j].dir));
      }
      RecordedRewrites(start.records, planned, pid);
      assert planned[..|planned|] == planned;
      r := Ok(planned);
    }
  }
}
