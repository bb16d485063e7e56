/** Whole runs of the upgrade flow: spec edits, Job progress and deletion,
    stale CR and Job reads, failed calls, crashes and lost status writes, in any
    order. */
module UpgradeRuns {
  import opened Wrappers
  import opened Releases
  import J = Jobs
  import opened Upgrade

  // ---- the system ---------------------------------------------------------------

  /** One version of the CR in etcd. */
  datatype Snapshot = Snapshot(spec: string, status: Status)

  /** hist is every version the CR ever had, so a pass can start from any of
      them; the last one is current. jobs is the history of each Job name. */
  datatype World = World(hist: seq<Snapshot>, jobs: seq<J.History>)
  {
    predicate Valid() { |hist| >= 1 && |jobs| == 5 }

    function Current(): Snapshot
      requires |hist| >= 1
    {
      hist[|hist| - 1]
    }

    function Slots(): JobSlots
      requires |jobs| == 5
    {
      seq(5, i requires 0 <= i < 5 => jobs[i].slot)
    }
  }

  /** A pass reads version number read of the CR; lands says whether its status
      write at the end is accepted. */
  datatype Step =
    | EditSpec(release: string)
    | JobEvent(name: Name, event: J.Step)
    | Pass(read: nat, in_: Input, lands: bool)

  const Fresh := Status(Steady, "", "", Unset)

  ghost predicate Initial(w: World) {
    |w.hist| == 1 && w.hist[0].status == Fresh && w.jobs == seq(5, i => J.Empty)
  }

  function FlowOf(w: World, s: Step): (Flow, JobSlots)
    requires s.Pass? && s.read < |w.hist| && s.in_.Valid() && |w.jobs| == 5
  {
    ReconcilePass(w.hist[s.read].status, w.Slots(), w.hist[s.read].spec, s.in_)
  }

  /** The status write is optimistically locked, so it is accepted only from the
      current version, and a crashed pass makes none. */
  ghost predicate Enabled(w: World, s: Step)
    requires w.Valid()
  {
    match s
    case EditSpec(_) => true
    case JobEvent(name, event) => !event.Pass? && J.Enabled(w.jobs[name], event)
    case Pass(read, in_, lands) =>
      && read < |w.hist| && in_.Valid()
      && (forall i :: 0 <= i < 5 ==> J.Readable(w.jobs[i], in_.views[i]))
      && (lands ==> read == |w.hist| - 1 && FlowOf(w, s).0.error != Some(JobError(J.Crashed)))
  }

  ghost function Next(w: World, s: Step): World
    requires w.Valid() && Enabled(w, s)
  {
    match s
    case EditSpec(release) => w.(hist := w.hist + [Snapshot(release, w.Current().status)])
    case JobEvent(name, event) => w.(jobs := w.jobs[name := J.Next(w.jobs[name], event)])
    case Pass(read, in_, lands) =>
      var spec := w.hist[read].spec;
      var (flow, slots) := FlowOf(w, s);
      World(
        if lands then w.hist + [Snapshot(spec, flow.status)] else w.hist,
        seq(5, i requires 0 <= i < 5 => J.Record(w.jobs[i], slots[i], Some(KeyFor(i, spec, in_)))))
  }

  ghost predicate JobsOk(w: World) {
    |w.jobs| == 5 && forall i :: 0 <= i < 5 ==> J.Inv(w.jobs[i])
  }

  // ---- what a pass does to the Jobs ------------------------------------------------

  predicate OneJobCall(before: J.Slot, after: J.Slot, name: Name, spec: string, in_: Input)
    requires in_.Valid()
  {
    || after == before
    || after == J.RunJob(before, in_.views[name], KeyFor(name, spec, in_), in_.faults[name]).0
    || after == J.DeleteJob(before, in_.faults[name].delete, in_.faults[name].lingers).0
  }

  lemma {:induction false} DeleteFromIsOneCallEach(jobs: JobSlots, i: nat, spec: string, in_: Input)
    requires in_.Valid() && i <= 3
    ensures var after := DeleteFrom(jobs, i, in_).0;
            && (forall k :: 0 <= k < i ==> after[k] == jobs[k])
            && (forall k :: 0 <= k < 5 ==> OneJobCall(jobs[k], after[k], k, spec, in_))
    decreases 3 - i
  {
    if i < 3 {
      var (slot, err) := J.DeleteJob(jobs[i], in_.faults[i].delete, in_.faults[i].lingers);
      DeleteFromIsOneCallEach(jobs[i := slot], i + 1, spec, in_);
    }
  }

  predicate OneCallEach(before: JobSlots, after: JobSlots, spec: string, in_: Input)
    requires in_.Valid()
  {
    forall k {:trigger after[k]} :: 0 <= k < 5 ==> OneJobCall(before[k], after[k], k, spec, in_)
  }

  lemma DriveIsOneCallEach(st: Status, jobs: JobSlots, spec: string, in_: Input)
    requires in_.Valid()
    ensures OneCallEach(jobs, Drive(st, jobs, spec, in_).1, spec, in_)
  {
    if spec == st.installed {
      DeleteFromIsOneCallEach(jobs, 0, spec, in_);
    } else {
      var name := if st.phase.Expanding? then DB_EXPAND else if st.phase.Migrating? then DB_MIGRATE else DB_CONTRACT;
      assert Drive(st, jobs, spec, in_).1 in {jobs, Run(jobs, name, spec, in_).0};
    }
  }

  lemma SyncIsOneCallEach(st: Status, jobs: JobSlots, spec: string, in_: Input)
    requires in_.Valid()
    ensures OneCallEach(jobs, Sync(st, jobs, spec, in_).1, spec, in_)
  {
    var jobs1 := Run(jobs, DB_SYNC, spec, in_).0;
    assert Sync(st, jobs, spec, in_).1 in {jobs1, Run(jobs1, SCHEMA_CHECK, spec, in_).0};
  }

  lemma PassIsOneCallEach(st: Status, jobs: JobSlots, spec: string, in_: Input)
    requires in_.Valid()
    ensures OneCallEach(jobs, ReconcilePass(st, jobs, spec, in_).1, spec, in_)
  {
    var after := ReconcilePass(st, jobs, spec, in_).1;
    assert after == Database(st, jobs, spec, in_).1;
    if in_.provisioned == Ok(true) {
      if st.phase != Steady {
        DriveIsOneCallEach(st, jobs, spec, in_);
      } else if !IsUpgrade(spec, st.installed) {
        SyncIsOneCallEach(st, jobs, spec, in_);
      }
    }
  }

  /** An API call on a slot, recorded, keeps its history consistent. */
  lemma CallKeepsInv(h: J.History, after: J.Slot, name: Name, spec: string, in_: Input)
    requires J.Inv(h) && in_.Valid() && J.Readable(h, in_.views[name])
    requires OneJobCall(h.slot, after, name, spec, in_)
    ensures J.Inv(J.Record(h, after, Some(KeyFor(name, spec, in_))))
  {
    J.StepKeepsKeys(h, J.Pass(in_.views[name], KeyFor(name, spec, in_), in_.faults[name]));
  }

  /** Every step keeps every Job history consistent: keys name their creator and
      a Job seen complete ran to completion. */
  lemma StepKeepsJobs(w: World, s: Step)
    requires w.Valid() && Enabled(w, s) && JobsOk(w)
    ensures JobsOk(Next(w, s))
  {
    match s
    case EditSpec(_) =>
    case JobEvent(name, event) => J.StepKeepsKeys(w.jobs[name], event);
    case Pass(read, in_, _) =>
      var spec := w.hist[read].spec;
      var slots := FlowOf(w, s).1;
      PassIsOneCallEach(w.hist[read].status, w.Slots(), spec, in_);
      forall i | 0 <= i < 5 ensures J.Inv(J.Record(w.jobs[i], slots[i], Some(KeyFor(i, spec, in_)))) {
        assert OneJobCall(w.Slots()[i], slots[i], i, spec, in_);
        CallKeepsInv(w.jobs[i], slots[i], i, spec, in_);
      }
  }

  // ---- what a pass does to the status -----------------------------------------------

  ghost predicate SequentialPair(installed: string, target: string) {
    && ParseRelease(installed).Some? && ParseRelease(target).Some?
    && !IsDowngrade(ParseRelease(installed).value, ParseRelease(target).value)
    && IsSequentialUpgrade(ParseRelease(installed).value, ParseRelease(target).value)
  }

  /** Phase and target are set together; a set target follows the installed
      release by exactly one step. */
  ghost predicate StatusOk(st: Status) {
    && !st.phase.Unrecognized?
    && (st.phase.Steady? <==> st.target == "")
    && (st.target != "" ==> SequentialPair(st.installed, st.target))
  }

  /** What the pass saw on the Job of that name: complete, claimed, and carrying
      the key of the template for release. */
  ghost predicate SawComplete(in_: Input, name: Name, release: string)
    requires in_.Valid()
  {
    && in_.views[name].Some?
    && in_.views[name].value.claimable
    && J.Terminal(in_.views[name].value.conditions).RanToCompletion?
    && J.StoredKey(in_.views[name].value) == KeyFor(name, release, in_)
  }

  /** The same of db-sync and, if the CR has one, of the schema check. */
  ghost predicate SawSynced(in_: Input, release: string)
    requires in_.Valid()
  {
    SawComplete(in_, DB_SYNC, release) && (in_.schemaCheck ==> SawComplete(in_, SCHEMA_CHECK, release))
  }

  /** The Get went through and showed it. */
  ghost predicate Reads(in_: Input, name: Name, release: string)
    requires in_.Valid()
  {
    !in_.faults[name].getFails && SawComplete(in_, name, release)
  }

  datatype Move = Stay | Start | Promote | Expanded | Migrated | Rollout | Finish | Cancel

  ghost predicate Moves(m: Move, st: Status, st': Status, spec: string, in_: Input)
    requires in_.Valid()
  {
    match m
    case Stay => st' == st.(ready := st'.ready)
    case Start =>
      && st.phase.Steady? && st'.phase.Expanding? && st'.installed == st.installed && st'.target == spec
    case Promote =>
      && st.phase.Steady? && spec != "" && SawSynced(in_, spec)
      && st'.phase.Steady? && st'.target == st.target && st'.installed == spec
    case Expanded =>
      && spec == st.target && SawComplete(in_, DB_EXPAND, spec)
      && st.phase.Expanding? && st' == st.(phase := Migrating, ready := st'.ready)
    case Migrated =>
      && spec == st.target && SawComplete(in_, DB_MIGRATE, spec)
      && st.phase.Migrating? && st' == st.(phase := RollingUpdate, ready := st'.ready)
    case Rollout =>
      && in_.rolledOut && st.phase.RollingUpdate? && st' == st.(phase := Contracting, ready := st'.ready)
    case Finish =>
      && spec == st.target && SawComplete(in_, DB_CONTRACT, spec)
      && st.phase.Contracting? && st' == Status(Steady, st.target, "", st'.ready)
    case Cancel =>
      && !st.phase.Steady? && spec == st.installed && st' == Status(Steady, st.installed, "", st'.ready)
  }

  /** Why a move was allowed: an upgrade starts only along a sequential pair, and
      the sync path promotes only what needs no upgrade. */
  ghost predicate Allowed(m: Move, st: Status, spec: string) {
    && (m == Start ==> SequentialPair(st.installed, spec))
    && (m == Promote ==> !IsUpgrade(spec, st.installed))
  }

  lemma PhaseRunMoves(st: Status, jobs: JobSlots, spec: string, name: Name, in_: Input)
    requires in_.Valid() && name <= 2 && spec == st.target
    requires st.phase == if name == DB_EXPAND then Expanding else if name == DB_MIGRATE then Migrating else Contracting
    ensures var st' := RunPhase(st, jobs, spec, name, in_).0.status;
            Moves(Stay, st, st', spec, in_)
            || Moves(if name == DB_EXPAND then Expanded else if name == DB_MIGRATE then Migrated else Finish, st, st', spec, in_)
  {
    var (jobs1, out) := Run(jobs, name, spec, in_);
    assert out.done ==> SawComplete(in_, name, spec);
  }

  lemma DriveMoves(st: Status, jobs: JobSlots, spec: string, in_: Input) returns (m: Move)
    requires in_.Valid() && StatusOk(st) && !st.phase.Steady?
    ensures m in {Stay, Expanded, Migrated, Finish, Cancel}
    ensures Moves(m, st, Drive(st, jobs, spec, in_).0.status, spec, in_)
    ensures st.phase.RollingUpdate? && Drive(st, jobs, spec, in_).0.result == NoRequeue ==> m == Stay
    ensures m == Migrated ==> Drive(st, jobs, spec, in_).0.result == NextPass
  {
    var flow := Drive(st, jobs, spec, in_).0;
    m := Stay;
    if spec == st.installed {
      m := if flow.status.phase.Steady? then Cancel else Stay;
    } else if spec == st.target && st.phase != RollingUpdate {
      var name := if st.phase == Expanding then DB_EXPAND else if st.phase == Migrating then DB_MIGRATE else DB_CONTRACT;
      PhaseRunMoves(st, jobs, spec, name, in_);
      if flow.status.phase != st.phase {
        m := if name == DB_EXPAND then Expanded else if name == DB_MIGRATE then Migrated else Finish;
      }
    }
  }

  lemma InitiateMoves(st: Status, spec: string, in_: Input) returns (m: Move)
    requires in_.Valid() && st.phase.Steady?
    ensures m in {Stay, Start}
    ensures Moves(m, st, Initiate(st, spec).status, spec, in_) && Allowed(m, st, spec)
    ensures Initiate(st, spec).error.Some? || Initiate(st, spec).result == NextPass
  {
    m := if Initiate(st, spec).status.phase.Expanding? then Start else Stay;
  }

  lemma DoneIffReads(jobs: JobSlots, name: Name, release: string, in_: Input)
    requires in_.Valid()
    ensures Run(jobs, name, release, in_).1.done <==> Reads(in_, name, release)
    ensures Run(jobs, name, release, in_).1.done ==> Run(jobs, name, release, in_).1.error.None?
  {
    J.AnswersIff(jobs[name], in_.views[name], KeyFor(name, release, in_), in_.faults[name]);
  }

  /** The steady state waits for its Jobs: the sync is over, the condition true and the
      marker the image's release exactly when the pass read a complete db-sync of this
      image and, if there is one, a complete schema check; until then it asks for
      another pass or fails, and the marker stands. The event marks the transition. */
  lemma SyncedIffRead(st: Status, jobs: JobSlots, tag: string, in_: Input)
    requires in_.Valid()
    ensures var flow := Sync(st, jobs, tag, in_).0;
            var saw := Reads(in_, DB_SYNC, tag) && (in_.schemaCheck ==> Reads(in_, SCHEMA_CHECK, tag));
            && (flow.error.None? && flow.result == NoRequeue <==> saw)
            && (flow.status.ready == Condition(true, "DatabaseSynced") <==> saw)
            && (saw ==> flow.events == if st.ready == Condition(true, "DatabaseSynced") then [] else ["DatabaseSynced"])
            && (!saw ==> flow.status.ready.Condition? && !flow.status.ready.isTrue && flow.error.Some? != (flow.result == AfterInterval))
            && flow.status == st.(installed := if saw && tag != "" then tag else st.installed, ready := flow.status.ready)
  {
    var jobs1 := Run(jobs, DB_SYNC, tag, in_).0;
    DoneIffReads(jobs, DB_SYNC, tag, in_);
    DoneIffReads(jobs1, SCHEMA_CHECK, tag, in_);
  }

  lemma SyncMoves(st: Status, jobs: JobSlots, spec: string, in_: Input) returns (m: Move)
    requires in_.Valid() && st.phase.Steady? && !IsUpgrade(spec, st.installed)
    ensures m in {Stay, Promote}
    ensures Moves(m, st, Sync(st, jobs, spec, in_).0.status, spec, in_)
  {
    SyncedIffRead(st, jobs, spec, in_);
    m := if Sync(st, jobs, spec, in_).0.status.installed == st.installed then Stay else Promote;
  }

  /** Every pass makes one of eight moves, whatever the API server answers. */
  lemma PassMoves(st: Status, jobs: JobSlots, spec: string, in_: Input) returns (m: Move)
    requires in_.Valid() && StatusOk(st)
    ensures Moves(m, st, ReconcilePass(st, jobs, spec, in_).0.status, spec, in_) && Allowed(m, st, spec)
  {
    m := Stay;
    if in_.provisioned == Ok(true) {
      if st.phase != Steady {
        m := DriveMoves(st, jobs, spec, in_);
        var flow := Drive(st, jobs, spec, in_).0;
        if flow.error.None? && flow.result == NoRequeue && in_.rolledOut && flow.status.phase.RollingUpdate? {
          m := Rollout;
        }
      } else if IsUpgrade(spec, st.installed) {
        m := InitiateMoves(st, spec, in_);
      } else {
        m := SyncMoves(st, jobs, spec, in_);
      }
    }
  }

  /** How the installed-release marker may change between two versions of the CR. */
  ghost predicate MarkerStep(before: string, after: string) {
    ParseRelease(before).Some? && after != before ==>
      && ParseRelease(after).Some?
      && (IsPatchOnly(ParseRelease(before).value, ParseRelease(after).value)
          || IsSequentialUpgrade(ParseRelease(before).value, ParseRelease(after).value))
  }

  lemma MoveKeepsStatus(m: Move, st: Status, st': Status, spec: string, in_: Input)
    requires in_.Valid() && StatusOk(st) && Moves(m, st, st', spec, in_) && Allowed(m, st, spec)
    ensures StatusOk(st') && MarkerStep(st.installed, st'.installed)
  {
  }

  lemma PassKeepsStatus(st: Status, jobs: JobSlots, spec: string, in_: Input) returns (m: Move)
    requires in_.Valid() && StatusOk(st)
    ensures var st' := ReconcilePass(st, jobs, spec, in_).0.status;
            Moves(m, st, st', spec, in_) && StatusOk(st') && MarkerStep(st.installed, st'.installed)
  {
    m := PassMoves(st, jobs, spec, in_);
    MoveKeepsStatus(m, st, ReconcilePass(st, jobs, spec, in_).0.status, spec, in_);
  }

  // ---- aborting ---------------------------------------------------------------------------

  /** The delete of a phase Job fails for another reason than that it is gone. */
  predicate DeleteFails(i: nat, in_: Input)
    requires in_.Valid() && i < 3
  {
    !in_.faults[i].delete.Answered?
  }

  lemma {:induction false} DeleteFailsIff(jobs: JobSlots, i: nat, in_: Input)
    requires in_.Valid() && i <= 3
    ensures DeleteFrom(jobs, i, in_).1.Some? <==> exists k :: i <= k < 3 && DeleteFails(k, in_)
    ensures DeleteFrom(jobs, i, in_).1.None? ==>
              forall k :: i <= k < 3 ==>
                var live := DeleteFrom(jobs, i, in_).0[k].live; live.Some? ==> live.value.deleting
    decreases 3 - i
  {
    if i < 3 {
      var (slot, err) := J.DeleteJob(jobs[i], in_.faults[i].delete, in_.faults[i].lingers);
      DeleteFailsIff(jobs[i := slot], i + 1, in_);
      DeleteFromIsOneCallEach(jobs[i := slot], i + 1, "", in_);
      assert (exists k :: i <= k < 3 && DeleteFails(k, in_))
             <==> DeleteFails(i, in_) || exists k :: i + 1 <= k < 3 && DeleteFails(k, in_);
    }
  }

  /** An abort is over exactly when every delete went through: the fields are reset and
      no phase Job is left but one that is being deleted. Else the pass fails and the
      status is as it was. */
  lemma AbortsIff(st: Status, jobs: JobSlots, in_: Input)
    requires in_.Valid()
    ensures var (flow, jobs1) := Abort(st, jobs, in_);
            if exists k :: 0 <= k < 3 && DeleteFails(k, in_) then
              flow.status == st && flow.error.Some?
            else
              && flow.status == Status(Steady, st.installed, "", st.ready) && flow.error.None? && flow.result == NextPass
              && forall k :: 0 <= k < 3 && jobs1[k].live.Some? ==> jobs1[k].live.value.deleting
  {
    DeleteFailsIff(jobs, 0, in_);
  }

  // ---- runs -------------------------------------------------------------------------------

  ghost predicate IsRun(ws: seq<World>, steps: seq<Step>) {
    && |ws| == |steps| + 1
    && Initial(ws[0])
    && (forall i :: 0 <= i < |ws| ==> ws[i].Valid())
    && (forall i {:trigger steps[i]} :: 0 <= i < |steps| ==> Enabled(ws[i], steps[i]) && ws[i + 1] == Next(ws[i], steps[i]))
  }

  lemma {:induction false} JobsInEveryRun(ws: seq<World>, steps: seq<Step>, n: nat)
    requires IsRun(ws, steps) && n <= |steps|
    ensures JobsOk(ws[n])
  {
    if n > 0 {
      JobsInEveryRun(ws, steps, n - 1);
      assert ws[n] == Next(ws[n - 1], steps[n - 1]);
      StepKeepsJobs(ws[n - 1], steps[n - 1]);
    }
  }

  /** A step as the current version of the CR sees it. */
  ghost predicate Link(cur: Snapshot, s: Step, cur': Snapshot, m: Move) {
    match s
    case EditSpec(release) => m == Stay && cur' == Snapshot(release, cur.status)
    case JobEvent(_, _) => m == Stay && cur' == cur
    case Pass(_, in_, lands) =>
      && in_.Valid()
      && if lands then cur'.spec == cur.spec && Moves(m, cur.status, cur'.status, cur.spec, in_)
         else m == Stay && cur' == cur
  }

  /** The version a step leaves current. */
  function CurrentAfter(w: World, s: Step): Snapshot
    requires w.Valid() && (s.Pass? ==> s.read < |w.hist| && s.in_.Valid())
  {
    match s
    case EditSpec(release) => Snapshot(release, w.Current().status)
    case JobEvent(_, _) => w.Current()
    case Pass(_, _, lands) => if lands then Snapshot(w.Current().spec, FlowOf(w, s).0.status) else w.Current()
  }

  lemma StepAppends(w: World, s: Step)
    requires w.Valid() && Enabled(w, s)
    ensures Next(w, s).hist == w.hist || Next(w, s).hist == w.hist + [CurrentAfter(w, s)]
    ensures Next(w, s).Current() == CurrentAfter(w, s)
  {
  }

  /** What one step does to the current version of the CR. */
  lemma StepLink(w: World, s: Step) returns (m: Move)
    requires w.Valid() && StatusOk(w.Current().status)
    requires s.Pass? ==> s.read < |w.hist| && s.in_.Valid() && (s.lands ==> s.read == |w.hist| - 1)
    ensures Link(w.Current(), s, CurrentAfter(w, s), m)
    ensures StatusOk(CurrentAfter(w, s).status)
    ensures MarkerStep(w.Current().status.installed, CurrentAfter(w, s).status.installed)
  {
    var cur, cur' := w.Current(), CurrentAfter(w, s);
    m := Stay;
    if s.Pass? && s.lands {
      m := LandedLink(cur, w.Slots(), s.in_, cur');
    } else {
      Unmoved(cur.status, cur'.status);
    }
  }

  lemma LandedLink(cur: Snapshot, jobs: JobSlots, in_: Input, cur': Snapshot) returns (m: Move)
    requires in_.Valid() && StatusOk(cur.status)
    requires cur' == Snapshot(cur.spec, ReconcilePass(cur.status, jobs, cur.spec, in_).0.status)
    ensures Moves(m, cur.status, cur'.status, cur.spec, in_)
    ensures StatusOk(cur'.status) && MarkerStep(cur.status.installed, cur'.status.installed)
  {
    m := PassKeepsStatus(cur.status, jobs, cur.spec, in_);
  }

  lemma Unmoved(st: Status, st': Status)
    requires st' == st && StatusOk(st)
    ensures StatusOk(st') && MarkerStep(st.installed, st'.installed)
  {
  }

  /** Every version is consistent and follows from the one before it. */
  ghost predicate HistoryOk(hist: seq<Snapshot>) {
    hist == [] ||
    (var n := |hist| - 1;
     && HistoryOk(hist[..n])
     && StatusOk(hist[n].status)
     && (n > 0 ==> MarkerStep(hist[n - 1].status.installed, hist[n].status.installed)))
  }

  lemma HistoryStarts(w: World)
    requires Initial(w)
    ensures HistoryOk(w.hist)
  {
    assert HistoryOk([]) && w.hist[..0] == [] && StatusOk(Fresh);
    assert HistoryOk([w.hist[0]]) && w.hist == [w.hist[0]];
  }

  lemma HistoryGrows(hist: seq<Snapshot>, s: Snapshot)
    requires |hist| >= 1 && HistoryOk(hist) && StatusOk(s.status)
    requires MarkerStep(hist[|hist| - 1].status.installed, s.status.installed)
    ensures HistoryOk(hist + [s])
  {
    var all, n := hist + [s], |hist|;
    assert all[..n] == hist && all[n] == s && all[n - 1] == hist[n - 1];
  }

  lemma {:induction false} HistoryAt(hist: seq<Snapshot>, k: nat)
    requires HistoryOk(hist) && k < |hist|
    ensures StatusOk(hist[k].status)
    ensures k > 0 ==> MarkerStep(hist[k - 1].status.installed, hist[k].status.installed)
  {
    if k < |hist| - 1 {
      HistoryAt(hist[..|hist| - 1], k);
    }
  }

  lemma HistoryStep(w: World, s: Step)
    requires w.Valid() && Enabled(w, s) && HistoryOk(w.hist)
    ensures HistoryOk(Next(w, s).hist)
  {
    HistoryAt(w.hist, |w.hist| - 1);
    var m := StepLink(w, s);
    StepAppends(w, s);
    if Next(w, s).hist != w.hist {
      HistoryGrows(w.hist, CurrentAfter(w, s));
    }
  }

  lemma RunStep(ws: seq<World>, steps: seq<Step>, n: nat)
    requires IsRun(ws, steps) && n < |steps|
    ensures ws[n].Valid() && Enabled(ws[n], steps[n]) && ws[n + 1] == Next(ws[n], steps[n])
  {}

  /** Over whole runs: phase is empty exactly when target is, a set target is a
      non-downgrade sequential successor of the installed release, and a set,
      parseable marker changes only patch-only or by one sequential step. */
  lemma {:induction false} HistoryInEveryRun(ws: seq<World>, steps: seq<Step>, n: nat)
    requires IsRun(ws, steps) && n <= |steps|
    ensures HistoryOk(ws[n].hist)
  {
    if n == 0 {
      HistoryStarts(ws[0]);
    } else {
      HistoryInEveryRun(ws, steps, n - 1);
      RunStep(ws, steps, n - 1);
      HistoryStep(ws[n - 1], steps[n - 1]);
    }
  }

  /** The place of the marker in the release sequence. */
  function Position(marker: string): Option<int> {
    if ParseRelease(marker).Some? then Some(Ordinal(ParseRelease(marker).value)) else None
  }

  lemma MarkerStepMoves(before: string, after: string)
    requires MarkerStep(before, after)
    ensures Position(before).Some? ==>
              Position(after).Some? && Position(before).value <= Position(after).value <= Position(before).value + 1
  {
    if Position(before).Some? && before != after {
      Classification(before, after);
    }
  }

  lemma {:induction false} ClimbsByOne(ps: seq<Option<int>>, i: nat, j: nat)
    requires i <= j < |ps| && ps[i].Some?
    requires forall k {:trigger ps[k]} :: 0 < k < |ps| && ps[k - 1].Some? ==>
               ps[k].Some? && ps[k - 1].value <= ps[k].value <= ps[k - 1].value + 1
    ensures ps[j].Some? && ps[i].value <= ps[j].value
    ensures forall r {:trigger Some(r)} :: ps[i].value <= r <= ps[j].value ==> exists k :: i <= k <= j && ps[k] == Some(r)
    decreases j - i
  {
    if i < j {
      ClimbsByOne(ps, i, j - 1);
      assert ps[j] == Some(ps[j].value) && ps[j - 1].Some?;
    }
  }

  function Positions(hist: seq<Snapshot>): (ps: seq<Option<int>>)
    ensures |ps| == |hist| && forall k :: 0 <= k < |hist| ==> ps[k] == Position(hist[k].status.installed)
  {
    seq(|hist|, k requires 0 <= k < |hist| => Position(hist[k].status.installed))
  }

  lemma PositionStep(hist: seq<Snapshot>, k: nat)
    requires HistoryOk(hist) && 0 < k < |hist|
    ensures var p, q := Position(hist[k - 1].status.installed), Position(hist[k].status.installed);
            p.Some? ==> q.Some? && p.value <= q.value <= p.value + 1
  {
    HistoryAt(hist, k);
    MarkerStepMoves(hist[k - 1].status.installed, hist[k].status.installed);
  }

  /** So YYYY.N never falls, and every release between two markers was installed
      in between: none is skipped. */
  lemma MarkerNeverFallsOrSkips(ws: seq<World>, steps: seq<Step>, n: nat, i: nat, j: nat)
    requires IsRun(ws, steps) && n <= |steps| && i <= j < |ws[n].hist|
    requires Positions(ws[n].hist)[i].Some?
    ensures var ps := Positions(ws[n].hist);
            && ps[j].Some? && ps[i].value <= ps[j].value
            && forall r {:trigger Some(r)} :: ps[i].value <= r <= ps[j].value ==> exists k :: i <= k <= j && ps[k] == Some(r)
  {
    HistoryInEveryRun(ws, steps, n);
    var ps := Positions(ws[n].hist);
    forall k {:trigger ps[k]} | 0 < k < |ps| && ps[k - 1].Some?
      ensures ps[k].Some? && ps[k - 1].value <= ps[k].value <= ps[k - 1].value + 1
    {
      PositionStep(ws[n].hist, k);
    }
    ClimbsByOne(ps, i, j);
  }

  // ---- promotion to an in-flight target -------------------------------------------------------

  /** A run seen through the current version of the CR alone. */
  ghost predicate IsTrace(curs: seq<Snapshot>, steps: seq<Step>, moves: seq<Move>) {
    && |curs| == |steps| + 1 == |moves| + 1
    && curs[0].status == Fresh
    && (forall i {:trigger steps[i]} :: 0 <= i < |steps| ==> Link(curs[i], steps[i], curs[i + 1], moves[i]))
    && (forall i :: 0 <= i < |curs| ==> (curs[i].status.phase.Steady? <==> curs[i].status.target == ""))
  }

  /** The pass of step i wrote its status and found the CR in this phase. */
  ghost predicate Landed(curs: seq<Snapshot>, steps: seq<Step>, i: nat, phase: Phase)
    requires |curs| == |steps| + 1
  {
    && i < |steps| && steps[i].Pass? && steps[i].lands && steps[i].in_.Valid()
    && curs[i].status.phase == phase
  }

  /** That pass, beside, saw a Complete Job of the name under release's key. */
  ghost predicate LandedSeeing(curs: seq<Snapshot>, steps: seq<Step>, i: nat, phase: Phase, name: Name, release: string)
    requires |curs| == |steps| + 1
  {
    Landed(curs, steps, i, phase) && SawComplete(steps[i].in_, name, release)
  }

  /** Steps a < b < c < d: the upgrade to target began at a and is the one in
      flight up to version n; expand, migrate and rollout were then observed, in
      that order, as far as the phase says. */
  ghost predicate Evidence(curs: seq<Snapshot>, steps: seq<Step>, n: nat, a: nat, b: nat, c: nat, d: nat)
    requires |curs| == |steps| + 1 && n <= |steps|
  {
    var st := curs[n].status;
    && a < n && Landed(curs, steps, a, Steady)
    && (forall k :: a < k <= n ==> curs[k].status.target == st.target)
    && (st.phase in {Migrating, RollingUpdate, Contracting} ==>
          a < b < n && LandedSeeing(curs, steps, b, Expanding, DB_EXPAND, st.target))
    && (st.phase in {RollingUpdate, Contracting} ==>
          b < c < n && LandedSeeing(curs, steps, c, Migrating, DB_MIGRATE, st.target))
    && (st.phase == Contracting ==>
          c < d < n && Landed(curs, steps, d, RollingUpdate) && steps[d].in_.rolledOut)
  }

  /** One more step carries the evidence on, or begins it. */
  lemma ExtendEvidence(curs: seq<Snapshot>, steps: seq<Step>, m: Move, n: nat, a: nat, b: nat, c: nat, d: nat)
    requires |curs| == |steps| + 1 && 0 < n <= |steps|
    requires Link(curs[n - 1], steps[n - 1], curs[n], m)
    requires !curs[n - 1].status.phase.Steady? && !curs[n].status.phase.Steady?
    requires Evidence(curs, steps, n - 1, a, b, c, d)
    ensures Evidence(curs, steps, n, a, if m == Expanded then n - 1 else b,
                     if m == Migrated then n - 1 else c, if m == Rollout then n - 1 else d)
  {
    assert curs[n].status.target == curs[n - 1].status.target;
  }

  lemma {:induction false} InFlightHasEvidence(curs: seq<Snapshot>, steps: seq<Step>, moves: seq<Move>, n: nat)
    returns (a: nat, b: nat, c: nat, d: nat)
    requires IsTrace(curs, steps, moves) && n <= |steps|
    requires !curs[n].status.phase.Steady?
    ensures Evidence(curs, steps, n, a, b, c, d)
  {
    a, b, c, d := 0, 0, 0, 0;
    if n > 0 {
      assert Link(curs[n - 1], steps[n - 1], curs[n], moves[n - 1]);
      if curs[n - 1].status.phase.Steady? {
        a := n - 1;
      } else {
        a, b, c, d := InFlightHasEvidence(curs, steps, moves, n - 1);
        var m := moves[n - 1];
        ExtendEvidence(curs, steps, m, n, a, b, c, d);
        b := if m == Expanded then n - 1 else b;
        c := if m == Migrated then n - 1 else c;
        d := if m == Rollout then n - 1 else d;
      }
    }
  }

  function Currents(ws: seq<World>): (curs: seq<Snapshot>)
    requires forall i :: 0 <= i < |ws| ==> |ws[i].hist| >= 1
    ensures |curs| == |ws| && forall i :: 0 <= i < |ws| ==> curs[i] == ws[i].Current()
  {
    seq(|ws|, i requires 0 <= i < |ws| => ws[i].Current())
  }

  lemma TraceLink(ws: seq<World>, steps: seq<Step>, n: nat) returns (m: Move)
    requires IsRun(ws, steps) && n < |steps|
    ensures Link(ws[n].Current(), steps[n], ws[n + 1].Current(), m)
  {
    HistoryInEveryRun(ws, steps, n);
    var w, s := ws[n], steps[n];
    HistoryAt(w.hist, |w.hist| - 1);
    assert w.Valid() && Enabled(w, s) && ws[n + 1] == Next(w, s);
    StepAppends(w, s);
    m := StepLink(w, s);
  }

  /** Every run is such a trace. */
  lemma RunIsTrace(ws: seq<World>, steps: seq<Step>) returns (moves: seq<Move>)
    requires IsRun(ws, steps)
    ensures IsTrace(Currents(ws), steps, moves)
  {
    var curs := Currents(ws);
    moves := [];
    for n := 0 to |steps|
      invariant |moves| == n
      invariant forall i :: 0 <= i < n ==> Link(curs[i], steps[i], curs[i + 1], moves[i])
    {
      var m := TraceLink(ws, steps, n);
      moves := moves + [m];
    }
    forall i | 0 <= i < |curs| ensures curs[i].status.phase.Steady? <==> curs[i].status.target == "" {
      HistoryInEveryRun(ws, steps, i);
      HistoryAt(ws[i].hist, |ws[i].hist| - 1);
    }
  }

  /** What was seen was earned: a Job created under that key ran to completion. */
  ghost predicate Earned(w: World, in_: Input, name: Name, release: string)
    requires in_.Valid() && |w.jobs| == 5 && SawComplete(in_, name, release)
  {
    var uid := in_.views[name].value.uid;
    && uid in w.jobs[name].keyOf && w.jobs[name].keyOf[uid] == KeyFor(name, release, in_)
    && uid in w.jobs[name].completed
  }

  lemma SeenIsEarned(w: World, s: Step, name: Name, release: string)
    requires w.Valid() && JobsOk(w) && Enabled(w, s) && s.Pass? && SawComplete(s.in_, name, release)
    ensures Earned(w, s.in_, name, release)
  {
    assert J.Readable(w.jobs[name], s.in_.views[name]);
  }

  /** The safety property of the flow. In every run the marker moves while an
      upgrade is in flight only to its target T, and only after landed passes
      observed, in order since that upgrade began: a Complete db-expand, a
      Complete db-migrate, a reported rollout and, now, a Complete db-contract,
      each under the key of the template for T and each earned by a completed
      Job created under that key. */
  lemma PromotedOnlyAfterAllPhases(ws: seq<World>, steps: seq<Step>, n: nat)
    returns (a: nat, b: nat, c: nat, d: nat)
    requires IsRun(ws, steps) && n < |steps|
    requires ws[n].Current().status.target != ""
    requires ws[n + 1].Current().status.installed != ws[n].Current().status.installed
    ensures var t, curs := ws[n].Current().status.target, Currents(ws);
            && ws[n + 1].Current().status.installed == t
            && a < b < c < d < n
            && Landed(curs, steps, a, Steady)
            && (forall k :: a < k <= n ==> curs[k].status.target == t)
            && LandedSeeing(curs, steps, b, Expanding, DB_EXPAND, t) && Earned(ws[b], steps[b].in_, DB_EXPAND, t)
            && LandedSeeing(curs, steps, c, Migrating, DB_MIGRATE, t) && Earned(ws[c], steps[c].in_, DB_MIGRATE, t)
            && Landed(curs, steps, d, RollingUpdate) && steps[d].in_.rolledOut
            && LandedSeeing(curs, steps, n, Contracting, DB_CONTRACT, t) && Earned(ws[n], steps[n].in_, DB_CONTRACT, t)
  {
    var moves := RunIsTrace(ws, steps);
    var curs := Currents(ws);
    a, b, c, d := LastMoveIsFinish(curs, steps, moves, n);
    var t := curs[n].status.target;
    JobsInEveryRun(ws, steps, b);
    SeenIsEarned(ws[b], steps[b], DB_EXPAND, t);
    JobsInEveryRun(ws, steps, c);
    SeenIsEarned(ws[c], steps[c], DB_MIGRATE, t);
    JobsInEveryRun(ws, steps, n);
    SeenIsEarned(ws[n], steps[n], DB_CONTRACT, t);
  }

  /** The rest of the safety property. With no upgrade in flight the marker moves, in
      every run, only to the release the spec names, which needs no upgrade, and only
      in a landed pass that saw a Complete db-sync of it and, if the CR has one, a
      Complete schema check, each earned by a completed Job of that key. */
  lemma PromotedOnlyWhenSynced(ws: seq<World>, steps: seq<Step>, n: nat)
    requires IsRun(ws, steps) && n < |steps|
    requires ws[n].Current().status.target == ""
    requires ws[n + 1].Current().status.installed != ws[n].Current().status.installed
    ensures var t, curs := ws[n].Current().spec, Currents(ws);
            && ws[n + 1].Current().status.installed == t != "" && !IsUpgrade(t, ws[n].Current().status.installed)
            && Landed(curs, steps, n, Steady) && SawSynced(steps[n].in_, t)
            && Earned(ws[n], steps[n].in_, DB_SYNC, t)
            && (steps[n].in_.schemaCheck ==> Earned(ws[n], steps[n].in_, SCHEMA_CHECK, t))
  {
    var w, s := ws[n], steps[n];
    HistoryInEveryRun(ws, steps, n);
    HistoryAt(w.hist, |w.hist| - 1);
    assert w.Valid() && Enabled(w, s) && ws[n + 1] == Next(w, s);
    StepAppends(w, s);
    var m := PassMoves(w.Current().status, w.Slots(), w.Current().spec, s.in_);
    JobsInEveryRun(ws, steps, n);
    SeenIsEarned(w, s, DB_SYNC, w.Current().spec);
    if s.in_.schemaCheck {
      SeenIsEarned(w, s, SCHEMA_CHECK, w.Current().spec);
    }
  }

  lemma LastMoveIsFinish(curs: seq<Snapshot>, steps: seq<Step>, moves: seq<Move>, n: nat)
    returns (a: nat, b: nat, c: nat, d: nat)
    requires IsTrace(curs, steps, moves) && n < |steps|
    requires curs[n].status.target != "" && curs[n + 1].status.installed != curs[n].status.installed
    ensures Evidence(curs, steps, n, a, b, c, d)
    ensures curs[n + 1].status.installed == curs[n].status.target
    ensures LandedSeeing(curs, steps, n, Contracting, DB_CONTRACT, curs[n].status.target)
  {
    assert Link(curs[n], steps[n], curs[n + 1], moves[n]);
    a, b, c, d := InFlightHasEvidence(curs, steps, moves, n);
  }

  lemma OtherKeyIsNotSeen(in_: Input, name: Name, target: string, other: string, rest: string)
    requires in_.Valid() && other != target
    requires in_.views[name].Some? ==> J.StoredKey(in_.views[name].value) == PodSpecHash(Template(name, other, rest))
    ensures !SawComplete(in_, name, target)
  {
    if SawComplete(in_, name, target) {
      HashTellsRelease(Template(name, other, rest), Template(name, target, in_.rest));
    }
  }

  /** A Job left from an upgrade to another release never advances a phase: its key
      was built for that release, in whatever configuration. Only the Job of the
      current phase matters, whatever the others hold. */
  lemma LeftoverOfOtherReleaseNeverAdvances(st: Status, jobs: JobSlots, spec: string, in_: Input, name: Name,
                                           other: string, rest: string)
    requires in_.Valid() && StatusOk(st) && other != st.target && name <= 2
    requires st.phase == if name == DB_EXPAND then Expanding else if name == DB_MIGRATE then Migrating else Contracting
    requires in_.views[name].Some? ==> J.StoredKey(in_.views[name].value) == PodSpecHash(Template(name, other, rest))
    ensures var st' := ReconcilePass(st, jobs, spec, in_).0.status;
            st'.phase == st.phase || (spec == st.installed && st'.phase.Steady? && st'.installed == st.installed)
  {
    OtherKeyIsNotSeen(in_, name, st.target, other, rest);
    var m := PassMoves(st, jobs, spec, in_);
    PhaseMove(m, st, ReconcilePass(st, jobs, spec, in_).0.status, spec, in_, name);
  }

  lemma PhaseMove(m: Move, st: Status, st': Status, spec: string, in_: Input, name: Name)
    requires in_.Valid() && name <= 2 && Moves(m, st, st', spec, in_) && !SawComplete(in_, name, st.target)
    requires st.phase == if name == DB_EXPAND then Expanding else if name == DB_MIGRATE then Migrating else Contracting
    ensures st'.phase == st.phase || (spec == st.installed && st'.phase.Steady? && st'.installed == st.installed)
  {}

  // ---- a third release ---------------------------------------------------------------------------

  /** The status fields the flow drives, without the condition. */
  function Fields(st: Status): (Phase, string, string) { (st.phase, st.installed, st.target) }

  ghost predicate NamesThird(s: Snapshot) {
    !s.status.phase.Steady? && s.spec != s.status.installed && s.spec != s.status.target
  }

  /** A pass that finds a third release in the spec leaves every status field and
      every Job alone, and says so with an error, an event and the condition. */
  lemma ThirdReleaseBlocks(st: Status, jobs: JobSlots, spec: string, in_: Input)
    requires in_.Valid() && NamesThird(Snapshot(spec, st))
    ensures Fields(ReconcilePass(st, jobs, spec, in_).0.status) == Fields(st)
    ensures ReconcilePass(st, jobs, spec, in_).1 == jobs
    ensures in_.provisioned == Ok(true) && !st.phase.Steady? ==>
              ReconcilePass(st, jobs, spec, in_).0
              == Flow(st.(ready := Condition(false, "UpgradeTargetChanged")), ["UpgradeTargetChanged"], NoRequeue, Some(TargetChangedError))
  {
  }

  /** From version m on the spec names a third release and the fields stand at f. */
  ghost predicate StuckSince(hist: seq<Snapshot>, m: nat, f: (Phase, string, string)) {
    m < |hist| && forall k :: m <= k < |hist| ==> NamesThird(hist[k]) && Fields(hist[k].status) == f
  }

  lemma StuckStep(w: World, s: Step, m: nat, f: (Phase, string, string))
    requires w.Valid() && Enabled(w, s) && StuckSince(w.hist, m, f)
    requires s.EditSpec? ==> s.release != f.1 && s.release != f.2
    ensures StuckSince(Next(w, s).hist, m, f)
  {
    if s.Pass? && s.lands {
      ThirdReleaseBlocks(w.hist[s.read].status, w.Slots(), w.hist[s.read].spec, s.in_);
    }
  }

  /** Every edit in the stretch names a third release again. */
  ghost predicate StuckStretch(ws: seq<World>, steps: seq<Step>, first: nat, last: nat) {
    && IsRun(ws, steps) && first <= last <= |steps|
    && NamesThird(ws[first].Current())
    && forall i {:trigger steps[i]} :: first <= i < last && steps[i].EditSpec? ==>
         steps[i].release != ws[first].Current().status.installed && steps[i].release != ws[first].Current().status.target
  }

  /** Over a whole stretch in which every spec names a third release the upgrade
      stands still: no field moves, however old the versions are that passes read. */
  lemma {:induction false} ThirdReleaseFreezes(ws: seq<World>, steps: seq<Step>, first: nat, last: nat)
    requires StuckStretch(ws, steps, first, last)
    ensures StuckSince(ws[last].hist, |ws[first].hist| - 1, Fields(ws[first].Current().status))
    decreases last
  {
    if first < last {
      ThirdReleaseFreezes(ws, steps, first, last - 1);
      var w, s := ws[last - 1], steps[last - 1];
      assert ws[last] == Next(w, s);
      StuckStep(w, s, |ws[first].hist| - 1, Fields(ws[first].Current().status));
    }
  }

  /** A pass touches a Job only if the version it read names no third release. */
  lemma ThirdReadTouchesNoJob(w: World, s: Step)
    requires w.Valid() && Enabled(w, s) && s.Pass? && NamesThird(w.hist[s.read])
    ensures Next(w, s).Slots() == w.Slots()
  {
    ThirdReleaseBlocks(w.hist[s.read].status, w.Slots(), w.hist[s.read].spec, s.in_);
  }

  /** So in such a stretch a pass that reads a version of it touches no Job. */
  lemma ThirdReleaseTouchesNoJob(ws: seq<World>, steps: seq<Step>, first: nat, last: nat)
    requires first < last && StuckStretch(ws, steps, first, last) && !steps[last - 1].JobEvent?
    requires steps[last - 1].Pass? ==> steps[last - 1].read >= |ws[first].hist| - 1
    ensures ws[last].Slots() == ws[last - 1].Slots()
  {
    ThirdReleaseFreezes(ws, steps, first, last - 1);
    var w, s := ws[last - 1], steps[last - 1];
    assert ws[last] == Next(w, s);
    if s.Pass? {
      ThirdReadTouchesNoJob(w, s);
    }
  }

  /** A pass that still reads the version from before the stretch may: one that names
      the installed release aborts, and deletes the live Jobs of the phases. */
  lemma StaleAbortDeletes(st: Status, jobs: JobSlots, in_: Input)
    requires in_.Valid() && !st.phase.Steady? && in_.provisioned == Ok(true)
    requires jobs[DB_EXPAND].live.Some? && !jobs[DB_EXPAND].live.value.deleting && !in_.faults[DB_EXPAND].delete.Refused?
    ensures ReconcilePass(st, jobs, st.installed, in_).1 != jobs
  {
    var (slot, err) := J.DeleteJob(jobs[DB_EXPAND], in_.faults[DB_EXPAND].delete, in_.faults[DB_EXPAND].lingers);
    assert ReconcilePass(st, jobs, st.installed, in_).1 == DeleteFrom(jobs, 0, in_).0;
    DeleteFromIsOneCallEach(jobs[0 := slot], 1, st.installed, in_);
    assert DeleteFrom(jobs, 0, in_).0[DB_EXPAND] == slot;
  }

  // ---- what the flow does not promise ------------------------------------------------------------------

  /** The observed run may predate the upgrade. Aborting deletes the phase Jobs,
      but a deleted Job that lingers still answers Get: starting the same upgrade
      again then passes Expanding on the old run, with no new Job created. */
  lemma LingeringJobOfSameReleaseCounts(st: Status, jobs: JobSlots, target: string, in_: Input)
    requires in_.Valid() && StatusOk(st) && st.phase.Expanding?
    requires st.target == target
    requires SawComplete(in_, DB_EXPAND, target) && !in_.faults[DB_EXPAND].getFails
    requires jobs[DB_EXPAND].live == in_.views[DB_EXPAND]
    requires forall i :: 0 <= i < 3 ==> in_.faults[i].delete.Answered? && in_.faults[i].lingers
    ensures var (f1, jobs1) := Drive(st, jobs, st.installed, in_);
            var f2 := Initiate(f1.status, target);
            var again := in_.(views := in_.views[DB_EXPAND := jobs1[DB_EXPAND].live]);
            var (f3, jobs3) := Drive(f2.status, jobs1, target, again);
            && f1.status.phase.Steady? && f2.status.phase.Expanding?
            && jobs1[DB_EXPAND].live.Some? && jobs1[DB_EXPAND].live.value.deleting
            && f3.status.phase.Migrating? && jobs3[DB_EXPAND].nextUid == jobs[DB_EXPAND].nextUid
  {
    AbortMarksDeleting(jobs, in_);
  }

  lemma AbortMarksDeleting(jobs: JobSlots, in_: Input)
    requires in_.Valid()
    requires forall i :: 0 <= i < 3 ==> in_.faults[i].delete.Answered? && in_.faults[i].lingers
    ensures DeleteFrom(jobs, 0, in_).1.None?
    ensures jobs[DB_EXPAND].live.Some? ==>
              DeleteFrom(jobs, 0, in_).0[DB_EXPAND]
              == jobs[DB_EXPAND].(live := Some(jobs[DB_EXPAND].live.value.(deleting := true)))
  {
    var j1 := jobs[0 := J.DeleteJob(jobs[0], J.Answered, true).0];
    var j2 := j1[1 := J.DeleteJob(j1[1], J.Answered, true).0];
    var j3 := j2[2 := J.DeleteJob(j2[2], J.Answered, true).0];
    assert DeleteFrom(j3, 3, in_) == (j3, None);
    assert DeleteFrom(j2, 2, in_) == (j3, None);
    assert DeleteFrom(j1, 1, in_) == (j3, None);
  }
}
