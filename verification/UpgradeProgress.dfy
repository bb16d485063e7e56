/** That the upgrade flow gets there (internal/common/database/upgrade.go and flow.go):
    passes that meet no fault, with Jobs that complete, bring an upgrade from its start to
    the promotion of its target and the steady state to its sync, in a bounded number of
    rounds. */
module UpgradeProgress {
  import opened Wrappers
  import opened Releases
  import opened Upgrade
  import opened UpgradeRuns
  import J = Jobs

  // ---- quiet rounds ------------------------------------------------------------------

  datatype State = State(st: Status, jobs: JobSlots)

  /** What stays fixed: the release the spec names, the rendered rest of the templates
      and whether the CR has a schema check. */
  datatype Setting = Setting(spec: string, rest: string, schemaCheck: bool)

  /** A pass that reads every live Job, meets no fault and is told of a rolled-out
      Deployment. */
  function QuietInput(s: State, c: Setting): (in_: Input)
    ensures in_.Valid()
  {
    Input(c.rest, seq(5, i requires 0 <= i < 5 => s.jobs[i].live), seq(5, i => J.NoFaults), c.schemaCheck, Ok(true), true)
  }

  /** The live Job runs to completion, if it was still running. */
  function Finished(slot: J.Slot): J.Slot {
    if slot.live.Some? && J.Terminal(slot.live.value.conditions).NotTerminal?
    then slot.(live := Some(slot.live.value.(conditions := J.DoneConditions)))
    else slot
  }

  /** One quiet pass, then every live Job has run. */
  function Round(s: State, c: Setting): State {
    var (flow, jobs) := ReconcilePass(s.st, s.jobs, c.spec, QuietInput(s, c));
    State(flow.status, seq(5, i requires 0 <= i < 5 => Finished(jobs[i])))
  }

  function Rounds(s: State, c: Setting, n: nat): State
    decreases n
  {
    if n == 0 then s else Rounds(Round(s, c), c, n - 1)
  }

  function KeyOf(name: Name, c: Setting): string { PodSpecHash(Template(name, c.spec, c.rest)) }

  // ---- how far a Job is from done ------------------------------------------------------

  /** The slot is empty or holds a Job of the owner that nobody deletes and that did not
      fail for good under the key. */
  predicate Usable(slot: J.Slot, key: string) {
    slot.live.Some? ==>
      && slot.live.value.claimable && !slot.live.value.deleting
      && (J.StoredKey(slot.live.value) == key ==> !J.Terminal(slot.live.value.conditions).PermanentlyFailed?)
  }

  /** Passes that ask for the Job until one finds it complete. */
  function Rank(slot: J.Slot, key: string): nat {
    if slot.live.None? then 1
    else
      var j := slot.live.value;
      if J.StoredKey(j) == key then (if J.Terminal(j.conditions).RanToCompletion? then 0 else 1)
      else if J.Terminal(j.conditions).NotTerminal? then 2 else 1
  }

  predicate AllUsable(s: State, c: Setting) { forall i: Name :: Usable(s.jobs[i], KeyOf(i, c)) }

  lemma FinishedRank(slot: J.Slot, key: string)
    requires Usable(slot, key)
    ensures Usable(Finished(slot), key) && Rank(Finished(slot), key) <= Rank(slot, key)
    ensures slot.live.Some? && J.StoredKey(slot.live.value) == key ==> Rank(Finished(slot), key) == 0
    ensures slot.live.Some? ==> Rank(Finished(slot), key) <= 1
  {
    J.CompleteIsTerminal();
  }

  /** A pass that asks for a Job is done if it is complete, and brings it nearer if not. */
  lemma AskedOnce(slot: J.Slot, key: string)
    requires Usable(slot, key)
    ensures var (after, out) := J.RunJob(slot, slot.live, key, J.NoFaults);
            && out.error.None? && (out.done <==> Rank(slot, key) == 0)
            && Usable(Finished(after), key)
            && (if out.done then after == slot else Rank(Finished(after), key) < Rank(slot, key))
  {
    var (after, out) := J.RunJob(slot, slot.live, key, J.NoFaults);
    FinishedRank(after, key);
  }

  lemma RunQuiet(s: State, c: Setting, jobs: JobSlots, name: Name)
    requires AllUsable(s, c) && jobs[name] == s.jobs[name]
    ensures var (jobs1, out) := Run(jobs, name, c.spec, QuietInput(s, c));
            && out.error.None? && (out.done <==> Rank(s.jobs[name], KeyOf(name, c)) == 0)
            && (out.done ==> jobs1 == jobs)
            && Usable(Finished(jobs1[name]), KeyOf(name, c))
            && (!out.done ==> Rank(Finished(jobs1[name]), KeyOf(name, c)) < Rank(s.jobs[name], KeyOf(name, c)))
            && forall i: Name :: i != name ==> jobs1[i] == jobs[i]
  {
    AskedOnce(s.jobs[name], KeyOf(name, c));
  }

  // ---- an upgrade in flight -------------------------------------------------------------

  /** The upgrade to the spec's release is under way. */
  predicate InFlight(s: State, c: Setting) {
    s.st.target == c.spec != s.st.installed && s.st.phase in {Expanding, Migrating, RollingUpdate, Contracting}
  }

  function PhaseJob(phase: Phase): Name {
    if phase == Expanding then DB_EXPAND else if phase == Migrating then DB_MIGRATE else DB_CONTRACT
  }

  function Later(phase: Phase): nat {
    if phase == Expanding then 7 else if phase == Migrating then 4 else if phase == RollingUpdate then 3 else 0
  }

  /** Rounds left, at most. */
  function Left(s: State, c: Setting): nat {
    1 + Later(s.st.phase)
    + if s.st.phase == RollingUpdate then 0 else Rank(s.jobs[PhaseJob(s.st.phase)], KeyOf(PhaseJob(s.st.phase), c))
  }

  lemma QuietPhase(s: State, c: Setting)
    requires AllUsable(s, c) && InFlight(s, c) && s.st.phase != RollingUpdate
    ensures var r, name := Round(s, c), PhaseJob(s.st.phase);
            && AllUsable(r, c)
            && if Rank(s.jobs[name], KeyOf(name, c)) > 0 then
                 r.st == s.st.(ready := r.st.ready) && Rank(r.jobs[name], KeyOf(name, c)) < Rank(s.jobs[name], KeyOf(name, c))
               else if name == DB_EXPAND then r.st == s.st.(phase := Migrating, ready := r.st.ready)
               else if name == DB_MIGRATE then r.st == s.st.(phase := RollingUpdate, ready := r.st.ready)
               else r.st == Status(Steady, c.spec, "", Condition(true, "DatabaseSynced"))
  {
    var name := PhaseJob(s.st.phase);
    RunQuiet(s, c, s.jobs, name);
    forall i: Name ensures Usable(Round(s, c).jobs[i], KeyOf(i, c)) {
      FinishedRank(s.jobs[i], KeyOf(i, c));
    }
  }

  lemma QuietRollout(s: State, c: Setting)
    requires AllUsable(s, c) && InFlight(s, c) && s.st.phase == RollingUpdate
    ensures var r := Round(s, c);
            AllUsable(r, c) && r.st == s.st.(phase := Contracting, ready := r.st.ready)
  {
    forall i: Name ensures Usable(Round(s, c).jobs[i], KeyOf(i, c)) {
      FinishedRank(s.jobs[i], KeyOf(i, c));
    }
  }

  lemma RankIsSmall(slot: J.Slot, key: string)
    ensures Rank(slot, key) <= 2
  {}

  /** A quiet round brings an upgrade nearer, or finishes it. */
  lemma QuietStep(s: State, c: Setting)
    requires AllUsable(s, c) && InFlight(s, c)
    ensures var r := Round(s, c);
            && AllUsable(r, c)
            && if InFlight(r, c) then Left(r, c) < Left(s, c) else r.st == Status(Steady, c.spec, "", Condition(true, "DatabaseSynced"))
  {
    var r := Round(s, c);
    if s.st.phase == RollingUpdate {
      QuietRollout(s, c);
      RankIsSmall(r.jobs[DB_CONTRACT], KeyOf(DB_CONTRACT, c));
    } else {
      QuietPhase(s, c);
      RankIsSmall(r.jobs[DB_MIGRATE], KeyOf(DB_MIGRATE, c));
    }
  }

  /** From any point of an upgrade, whatever is left of earlier ones but a Job that failed
      for good under a current key: within ten quiet rounds the target is promoted, the
      fields are reset and the condition is true. */
  lemma {:induction false} QuietUpgradeFinishes(s: State, c: Setting) returns (n: nat)
    requires AllUsable(s, c) && InFlight(s, c)
    ensures n <= Left(s, c) <= 10
    ensures Rounds(s, c, n).st == Status(Steady, c.spec, "", Condition(true, "DatabaseSynced"))
    decreases Left(s, c)
  {
    var r := Round(s, c);
    QuietStep(s, c);
    RankIsSmall(s.jobs[PhaseJob(s.st.phase)], KeyOf(PhaseJob(s.st.phase), c));
    if InFlight(r, c) {
      n := QuietUpgradeFinishes(r, c);
      n := n + 1;
    } else {
      n := 1;
      assert Rounds(s, c, 1) == Rounds(r, c, 0);
    }
  }

  /** The Job of the current phase failed for good under the current key. */
  predicate Blocked(s: State, c: Setting) {
    InFlight(s, c) && s.st.phase != RollingUpdate
    && var name := PhaseJob(s.st.phase);
       s.jobs[name].live.Some? && s.jobs[name].live.value.claimable
       && J.StoredKey(s.jobs[name].live.value) == KeyOf(name, c)
       && J.Terminal(s.jobs[name].live.value.conditions).PermanentlyFailed?
  }

  lemma BlockedRound(s: State, c: Setting)
    requires Blocked(s, c)
    ensures Blocked(Round(s, c), c) && Fields(Round(s, c).st) == Fields(s.st)
    ensures !Round(s, c).st.ready.isTrue && Round(s, c).jobs[PhaseJob(s.st.phase)] == s.jobs[PhaseJob(s.st.phase)]
  {}

  /** The one exception is one: behind such a Job no number of quiet rounds moves the
      upgrade. It takes a new key, or somebody who deletes the Job. */
  lemma {:induction false} FailedJobBlocks(s: State, c: Setting, n: nat)
    requires Blocked(s, c)
    ensures Fields(Rounds(s, c, n).st) == Fields(s.st)
    ensures Rounds(s, c, n).jobs[PhaseJob(s.st.phase)] == s.jobs[PhaseJob(s.st.phase)]
    decreases n
  {
    if n > 0 {
      BlockedRound(s, c);
      FailedJobBlocks(Round(s, c), c, n - 1);
    }
  }

  /** A phase whose Job is not complete waits or fails, exactly as the Job does, and says
      so in its condition; the status is otherwise what it was. */
  lemma PhaseWaitsOrFails(st: Status, jobs: JobSlots, spec: string, name: Name, in_: Input)
    requires in_.Valid() && name <= 2 && !Reads(in_, name, spec)
    ensures var flow, out := RunPhase(st, jobs, spec, name, in_).0, Run(jobs, name, spec, in_).1;
            && flow.status == st.(ready := Condition(false, PhaseName(name) + if out.error.Some? then "Failed" else "InProgress"))
            && (if out.error.Some? then flow.error == Some(JobError(out.error.value)) && flow.events == [flow.status.ready.reason]
                else flow.error.None? && flow.result == AfterInterval && flow.events == [])
  {
    DoneIffReads(jobs, name, spec, in_);
  }

  /** The event of a transition between two phases. */
  function TransitionEvent(from: Status, to: Status): string {
    match to.phase
    case Expanding => "UpgradeInitiated"
    case Migrating => "ExpandComplete"
    case RollingUpdate => "MigrateComplete"
    case Contracting => "DeploymentRolloutComplete"
    case _ => if to.installed == from.installed then "UpgradeAborted" else "UpgradeComplete"
  }

  /** A failure keeps the fields and records its reason, unless it touches nothing at
      all; a success records
      the transition it made, if it made one, or that the database came into sync. */
  predicate EventsTell(st: Status, flow: Flow) {
    if flow.error.Some? then
      if Untouched(flow.error.value) then flow == Flow(st, [], NoRequeue, flow.error)
      else flow.status == st.(ready := flow.status.ready) && ReasonIs(flow.status.ready, flow.events)
    else if flow.status.phase != st.phase then flow.events == [TransitionEvent(st, flow.status)]
    else flow.events == [] || (st.phase == Steady && flow.events == ["DatabaseSynced"])
  }

  predicate Untouched(e: FlowError) { e.AbortDeleteError? || e.UnknownPhaseError? || e.ProvisionError? }

  predicate ReasonIs(ready: Condition, events: seq<string>) {
    ready.Condition? && !ready.isTrue && events == [ready.reason]
  }

  lemma PhaseEvents(st: Status, jobs: JobSlots, spec: string, name: Name, in_: Input)
    requires in_.Valid() && name <= 2 && st.phase == (if name == 0 then Expanding else if name == 1 then Migrating else Contracting)
    requires st.target != st.installed
    ensures EventsTell(st, RunPhase(st, jobs, spec, name, in_).0)
  {}

  lemma DriveEvents(st: Status, jobs: JobSlots, spec: string, in_: Input)
    requires in_.Valid() && StatusOk(st) && st.phase != Steady
    ensures EventsTell(st, Drive(st, jobs, spec, in_).0)
  {
    if spec == st.installed {
    } else if spec == st.target && st.phase in {Expanding, Migrating, Contracting} {
      PhaseEvents(st, jobs, spec, PhaseJob(st.phase), in_);
    }
  }

  lemma SyncEvents(st: Status, jobs: JobSlots, spec: string, in_: Input)
    requires in_.Valid() && st.phase == Steady
    ensures EventsTell(st, Sync(st, jobs, spec, in_).0)
  {}

  lemma RolloutEvents(st: Status, flow: Flow)
    requires EventsTell(st, flow) && flow.error.None? && flow.result == NoRequeue
    requires flow.status.phase == RollingUpdate ==> st.phase == RollingUpdate
    ensures var (st', events) := RolledOut(flow.status);
            EventsTell(st, Flow(st', flow.events + events, if events == [] then NoRequeue else NextPass, None))
  {
    assert flow.events + [] == flow.events;
  }

  /** Every transition of the phase has its event and every event its cause. */
  lemma EventsTellTransitions(st: Status, jobs: JobSlots, spec: string, in_: Input)
    requires in_.Valid() && StatusOk(st)
    ensures EventsTell(st, ReconcilePass(st, jobs, spec, in_).0)
  {
    if in_.provisioned == Ok(true) {
      var flow := Database(st, jobs, spec, in_).0;
      if st.phase != Steady {
        DriveEvents(st, jobs, spec, in_);
        var m := DriveMoves(st, jobs, spec, in_);
      } else if !IsUpgrade(spec, st.installed) {
        SyncEvents(st, jobs, spec, in_);
      }
      if flow.error.None? && flow.result == NoRequeue {
        RolloutEvents(st, flow);
      }
    }
  }

  /** What the condition says of an upgrade in flight: the phase it is in, and while the
      Deployment rolls out, that. */
  function PhaseCondition(from: Phase, to: Phase): Condition {
    match to
    case Expanding => Condition(false, "ExpandInProgress")
    case Migrating => Condition(false, "MigrateInProgress")
    case RollingUpdate => Condition(false, "UpgradeRollingUpdate")
    case Contracting => Condition(false, if from == RollingUpdate then "UpgradeRollingUpdate" else "ContractInProgress")
    case _ => Condition(true, "DatabaseSynced")
  }

  lemma WaitingReason(name: Name)
    requires name <= 2
    ensures Condition(false, PhaseName(name) + "InProgress")
         == PhaseCondition(Steady, if name == DB_EXPAND then Expanding else if name == DB_MIGRATE then Migrating else Contracting)
  {}

  lemma JobPhaseCondition(st: Status, jobs: JobSlots, spec: string, name: Name, in_: Input)
    requires in_.Valid() && name <= 2 && st.phase == (if name == DB_EXPAND then Expanding else if name == DB_MIGRATE then Migrating else Contracting)
    ensures var flow := RunPhase(st, jobs, spec, name, in_).0;
            flow.error.None? ==> flow.status.ready == PhaseCondition(st.phase, flow.status.phase)
  {
    WaitingReason(name);
    if Reads(in_, name, spec) {
      DoneIffReads(jobs, name, spec, in_);
    } else {
      PhaseWaitsOrFails(st, jobs, spec, name, in_);
    }
  }

  lemma RolloutCondition(st: Status)
    requires st.phase == RollingUpdate && st.ready == PhaseCondition(RollingUpdate, RollingUpdate)
    ensures RolledOut(st).0.ready == PhaseCondition(RollingUpdate, RolledOut(st).0.phase)
  {}

  lemma ConditionTellsPhase(st: Status, jobs: JobSlots, spec: string, in_: Input)
    requires in_.Valid() && in_.provisioned == Ok(true) && StatusOk(st) && st.phase != Steady && spec == st.target
    ensures var flow := ReconcilePass(st, jobs, spec, in_).0;
            flow.error.None? ==> flow.status.ready == PhaseCondition(st.phase, flow.status.phase)
  {
    SequentialIsOther(st.installed, st.target);
    var m := DriveMoves(st, jobs, spec, in_);
    if st.phase == RollingUpdate {
      RolloutCondition(Drive(st, jobs, spec, in_).0.status);
    } else {
      JobPhaseCondition(st, jobs, spec, PhaseJob(st.phase), in_);
    }
  }

  lemma SequentialIsOther(a: string, b: string)
    requires SequentialPair(a, b)
    ensures a != b
  {}

  /** A phase nobody knows is an error that changes nothing. */
  lemma UnknownPhaseFails(st: Status, jobs: JobSlots, spec: string, in_: Input)
    requires in_.Valid() && in_.provisioned == Ok(true) && st.phase.Unrecognized? && spec == st.target != st.installed
    ensures ReconcilePass(st, jobs, spec, in_) == (Flow(st, [], NoRequeue, Some(UnknownPhaseError)), jobs)
  {}

  /** One that neither fails nor asks for another pass leaves the database synced, or an
      upgrade that rolls out; and none reports the database synced but one that ends so or
      changes no condition. */
  predicate NoStall(before: Condition, flow: Flow) {
    && (flow.error.None? && flow.result == NoRequeue ==>
          flow.status.phase == RollingUpdate
          || (flow.status.phase == Steady && flow.status.ready == Condition(true, "DatabaseSynced")))
    && (flow.status.ready.Condition? && flow.status.ready.isTrue && flow.status.ready != before ==>
          flow.status.phase == Steady && flow.error.None? && flow.result == NoRequeue)
  }

  lemma PhaseNoStall(st: Status, jobs: JobSlots, spec: string, name: Name, in_: Input)
    requires in_.Valid() && name <= 2
    ensures NoStall(st.ready, RunPhase(st, jobs, spec, name, in_).0)
  {}

  lemma AbortNoStall(st: Status, jobs: JobSlots, in_: Input)
    requires in_.Valid()
    ensures NoStall(st.ready, Abort(st, jobs, in_).0)
  {}

  lemma DriveNoStall(st: Status, jobs: JobSlots, spec: string, in_: Input)
    requires in_.Valid()
    ensures NoStall(st.ready, Drive(st, jobs, spec, in_).0)
  {
    if spec == st.installed {
      AbortNoStall(st, jobs, in_);
    } else if spec == st.target && st.phase in {Expanding, Migrating, Contracting} {
      PhaseNoStall(st, jobs, spec, PhaseJob(st.phase), in_);
    }
  }

  lemma SyncNoStall(st: Status, jobs: JobSlots, spec: string, in_: Input)
    requires in_.Valid() && st.phase == Steady
    ensures NoStall(st.ready, Sync(st, jobs, spec, in_).0)
  {
    SyncedIffRead(st, jobs, spec, in_);
  }

  /** No pass stalls; nor does one that is told of the rollout. */
  lemma NeverStalls(st: Status, jobs: JobSlots, spec: string, in_: Input)
    requires in_.Valid()
    ensures NoStall(st.ready, ReconcilePass(st, jobs, spec, in_).0)
    ensures in_.rolledOut && ReconcilePass(st, jobs, spec, in_).0.error.None? && ReconcilePass(st, jobs, spec, in_).0.result == NoRequeue ==>
              ReconcilePass(st, jobs, spec, in_).0.status.phase == Steady
  {
    if in_.provisioned == Ok(true) {
      if st.phase != Steady {
        DriveNoStall(st, jobs, spec, in_);
      } else if !IsUpgrade(spec, st.installed) {
        SyncNoStall(st, jobs, spec, in_);
      }
      var flow := Database(st, jobs, spec, in_).0;
      if flow.error.None? && flow.result == NoRequeue {
        RolloutNoStall(st.ready, flow);
      }
    }
  }

  lemma RolloutNoStall(before: Condition, flow: Flow)
    requires NoStall(before, flow) && flow.error.None? && flow.result == NoRequeue
    ensures var (st, events) := RolledOut(flow.status);
            NoStall(before, Flow(st, flow.events + events, if events == [] then NoRequeue else NextPass, None))
  {}

  /** Without a provisioned database a pass touches neither a Job nor a field, and it
      fails exactly if provisioning did. */
  lemma WaitsForProvisioning(st: Status, jobs: JobSlots, spec: string, in_: Input)
    requires in_.Valid() && in_.provisioned != Ok(true)
    ensures var (flow, jobs1) := ReconcilePass(st, jobs, spec, in_);
            && jobs1 == jobs && Fields(flow.status) == Fields(st)
            && (flow.error.Some? <==> in_.provisioned.Err?) && (flow.error.None? ==> flow.result == AfterInterval)
  {}

  // ---- from the steady state -------------------------------------------------------------

  /** Rounds of the sync left, at most. */
  function SyncLeft(s: State, c: Setting): nat {
    1 + Rank(s.jobs[DB_SYNC], KeyOf(DB_SYNC, c)) + if c.schemaCheck then Rank(s.jobs[SCHEMA_CHECK], KeyOf(SCHEMA_CHECK, c)) else 0
  }

  lemma QuietSync(s: State, c: Setting)
    requires AllUsable(s, c) && s.st.phase == Steady && !IsUpgrade(c.spec, s.st.installed)
    ensures var r := Round(s, c);
            && AllUsable(r, c)
            && if SyncLeft(s, c) == 1 then
                 r.st == s.st.(installed := if c.spec != "" then c.spec else s.st.installed, ready := Condition(true, "DatabaseSynced"))
               else r.st == s.st.(ready := r.st.ready) && SyncLeft(r, c) < SyncLeft(s, c)
  {
    var in_ := QuietInput(s, c);
    RunQuiet(s, c, s.jobs, DB_SYNC);
    var jobs1 := Run(s.jobs, DB_SYNC, c.spec, in_).0;
    RunQuiet(s, c, jobs1, SCHEMA_CHECK);
    forall i: Name ensures Usable(Round(s, c).jobs[i], KeyOf(i, c)) {
      FinishedRank(s.jobs[i], KeyOf(i, c));
    }
    FinishedRank(s.jobs[DB_SYNC], KeyOf(DB_SYNC, c));
    FinishedRank(s.jobs[SCHEMA_CHECK], KeyOf(SCHEMA_CHECK, c));
  }

  /** With no upgrade asked for, within five quiet rounds the database is synced and the
      marker is the release of the image. */
  lemma {:induction false} QuietSyncFinishes(s: State, c: Setting) returns (n: nat)
    requires AllUsable(s, c) && s.st.phase == Steady && !IsUpgrade(c.spec, s.st.installed)
    ensures n <= SyncLeft(s, c)
    ensures Rounds(s, c, n).st
         == s.st.(installed := if c.spec != "" then c.spec else s.st.installed, ready := Condition(true, "DatabaseSynced"))
    decreases SyncLeft(s, c)
  {
    var r := Round(s, c);
    QuietSync(s, c);
    if SyncLeft(s, c) == 1 {
      n := 1;
      assert Rounds(s, c, 1) == Rounds(r, c, 0);
    } else {
      n := QuietSyncFinishes(r, c);
      n := n + 1;
    }
  }

  /** An upgrade starts exactly along a sequential pair. Anything else that needs one is
      refused with an error and its reason, and nothing moves: a release that does not
      parse, a step back in the release sequence, or one of more than one. */
  lemma StartsIff(st: Status, spec: string)
    ensures var flow, from, to := Initiate(st, spec), Position(st.installed), Position(spec);
            if SequentialPair(st.installed, spec) then
              flow.status == Status(Expanding, st.installed, spec, Condition(false, "ExpandInProgress"))
              && flow.error.None? && flow.result == NextPass
            else
              && flow.status == st.(ready := flow.status.ready) && ReasonIs(flow.status.ready, flow.events)
              && if from.None? || to.None? then flow.error == Some(ParseError) && flow.events == ["VersionParseError"]
                 else if to.value < from.value then flow.error == Some(DowngradeError) && flow.events == ["DowngradeNotSupported"]
                 else flow.error == Some(NotSequentialError) && flow.events == ["UpgradePathInvalid"] && to.value != from.value + 1
  {
    if Position(st.installed).Some? && Position(spec).Some? {
      Classification(st.installed, spec);
    }
  }

  lemma QuietStart(s: State, c: Setting)
    requires AllUsable(s, c) && s.st.phase == Steady && SequentialPair(s.st.installed, c.spec)
    ensures AllUsable(Round(s, c), c) && InFlight(Round(s, c), c) && Round(s, c).st.phase == Expanding
  {
    StartsIff(s.st, c.spec);
    forall i: Name ensures Usable(Round(s, c).jobs[i], KeyOf(i, c)) {
      FinishedRank(s.jobs[i], KeyOf(i, c));
    }
  }

  /** One step ahead in the release sequence, an upgrade that is asked for in the steady
      state is done within eleven quiet rounds. */
  lemma QuietUpgrade(s: State, c: Setting) returns (n: nat)
    requires AllUsable(s, c) && s.st.phase == Steady && SequentialPair(s.st.installed, c.spec)
    ensures n <= 11
    ensures Rounds(s, c, n).st == Status(Steady, c.spec, "", Condition(true, "DatabaseSynced"))
  {
    var r := Round(s, c);
    QuietStart(s, c);
    n := QuietUpgradeFinishes(r, c);
    n := n + 1;
  }
}
