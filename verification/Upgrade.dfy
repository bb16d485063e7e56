/** The expand-migrate-contract flow (internal/common/database/upgrade.go), the
    steady-state sync beside it (flow.go) and the dispatch between the two
    (operators/keystone/internal/controller/reconcile_database.go). */
module Upgrade {
  import opened Wrappers
  import opened Text
  import opened Releases
  import opened Jobs

  // ---- Jobs -----------------------------------------------------------------

  /** The five fixed Job names of one CR; the first three are the phase Jobs. */
  type Name = i: nat | i < 5
  const DB_EXPAND: Name := 0
  const DB_MIGRATE: Name := 1
  const DB_CONTRACT: Name := 2
  const DB_SYNC: Name := 3
  const SCHEMA_CHECK: Name := 4

  type JobSlots = s: seq<Slot> | |s| == 5 witness seq(5, i => Slot(None, 0))

  /** The pod template of a Job: command, release image and whatever else the
      builder renders (config map name, mounts, environment). */
  datatype Template = Template(name: Name, release: string, rest: string)

  /** A collision-free stand-in for the SHA-256 of the template. */
  function PodSpecHash(t: Template): string {
    Itoa(t.name) + ":" + Itoa(|t.release|) + ":" + t.release + t.rest
  }

  /** Different templates have different keys: a new release gets one, and so does a new
      configuration. */
  lemma HashTellsRelease(a: Template, b: Template)
    requires PodSpecHash(a) == PodSpecHash(b)
    ensures a.name == b.name && a.release == b.release && a.rest == b.rest
  {
    var ra, rb := Itoa(|a.release|) + [':'] + (a.release + a.rest), Itoa(|b.release|) + [':'] + (b.release + b.rest);
    assert PodSpecHash(a) == Itoa(a.name) + [':'] + ra && PodSpecHash(b) == Itoa(b.name) + [':'] + rb;
    CutUnique(Itoa(a.name), ra, Itoa(b.name), rb, ':');
    CutUnique(Itoa(|a.release|), a.release + a.rest, Itoa(|b.release|), b.release + b.rest, ':');
    DigitsOfItoa(a.name);
    DigitsOfItoa(b.name);
    DigitsOfItoa(|a.release|);
    DigitsOfItoa(|b.release|);
    assert a.release == (a.release + a.rest)[..|a.release|];
    assert b.release == (b.release + b.rest)[..|b.release|];
    assert a.rest == (a.release + a.rest)[|a.release|..] && b.rest == (b.release + b.rest)[|b.release|..];
  }

  // ---- status -----------------------------------------------------------------

  datatype Phase = Steady | Expanding | Migrating | RollingUpdate | Contracting | Unrecognized

  datatype Condition = Unset | Condition(isTrue: bool, reason: string)

  datatype Status = Status(phase: Phase, installed: string, target: string, ready: Condition)

  datatype Requeue = NoRequeue | NextPass | AfterInterval

  datatype FlowError =
    | ParseError | DowngradeError | NotSequentialError | TargetChangedError | UnknownPhaseError
    | JobError(cause: RunError) | AbortDeleteError(cause: RunError) | ProvisionError

  /** What one flow does to the status, with the events it records and the
      controller-runtime result it returns. */
  datatype Flow = Flow(status: Status, events: seq<string>, result: Requeue, error: Option<FlowError>)

  /** What a pass is given: the rendered rest of every template, what each Get
      answers, how each Job call fares, whether the CR has a schema check, how
      provisioning went and whether the Deployment is reported rolled out. */
  datatype Input = Input(rest: string, views: seq<Option<Job>>, faults: seq<Faults>, schemaCheck: bool,
                         provisioned: Result<bool, ()>, rolledOut: bool)
  {
    predicate Valid() { |views| == 5 && |faults| == 5 }
  }

  function KeyFor(name: Name, release: string, in_: Input): string {
    PodSpecHash(Template(name, release, in_.rest))
  }

  function Run(jobs: JobSlots, name: Name, release: string, in_: Input): (JobSlots, Outcome)
    requires in_.Valid()
  {
    var (slot, out) := RunJob(jobs[name], in_.views[name], KeyFor(name, release, in_), in_.faults[name]);
    (jobs[name := slot], out)
  }

  // ---- upgrade.go ----------------------------------------------------------------

  predicate IsUpgrade(spec: string, installed: string) {
    if spec == "" || installed == "" || spec == installed then false
    else if ParseRelease(installed).None? || ParseRelease(spec).None? then true
    else !IsPatchOnly(ParseRelease(installed).value, ParseRelease(spec).value)
  }

  function Refused(st: Status, reason: string, error: FlowError): Flow {
    Flow(st.(ready := Condition(false, reason)), [reason], NoRequeue, Some(error))
  }

  function Initiate(st: Status, spec: string): Flow {
    var from, to := ParseRelease(st.installed), ParseRelease(spec);
    if from.None? || to.None? then Refused(st, "VersionParseError", ParseError)
    else if IsDowngrade(from.value, to.value) then Refused(st, "DowngradeNotSupported", DowngradeError)
    else if !IsSequentialUpgrade(from.value, to.value) then Refused(st, "UpgradePathInvalid", NotSequentialError)
    else
      Flow(Status(Expanding, st.installed, spec, Condition(false, "ExpandInProgress")),
           ["UpgradeInitiated"], NextPass, None)
  }

  function PhaseName(name: Name): string {
    if name == DB_EXPAND then "Expand" else if name == DB_MIGRATE then "Migrate" else "Contract"
  }

  function Complete(st: Status, name: Name): Flow {
    if name == DB_EXPAND then
      Flow(st.(phase := Migrating, ready := Condition(false, "MigrateInProgress")), ["ExpandComplete"], NextPass, None)
    else if name == DB_MIGRATE then
      Flow(st.(phase := RollingUpdate, ready := Condition(false, "UpgradeRollingUpdate")), ["MigrateComplete"], NextPass, None)
    else
      Flow(Status(Steady, st.target, "", Condition(true, "DatabaseSynced")), ["UpgradeComplete"], NoRequeue, None)
  }

  function RunPhase(st: Status, jobs: JobSlots, spec: string, name: Name, in_: Input): (Flow, JobSlots)
    requires in_.Valid()
  {
    var (jobs1, out) := Run(jobs, name, spec, in_);
    if out.error.Some? then
      (Refused(st, PhaseName(name) + "Failed", JobError(out.error.value)), jobs1)
    else if !out.done then
      (Flow(st.(ready := Condition(false, PhaseName(name) + "InProgress")), [], AfterInterval, None), jobs1)
    else (Complete(st, name), jobs1)
  }

  /** The phase Jobs from index i on, deleted in order up to the first error. */
  function DeleteFrom(jobs: JobSlots, i: nat, in_: Input): (JobSlots, Option<RunError>)
    requires in_.Valid() && i <= 3
    decreases 3 - i
  {
    if i == 3 then (jobs, None)
    else
      var (slot, err) := DeleteJob(jobs[i], in_.faults[i].delete, in_.faults[i].lingers);
      if err.Some? && err.value != NotFound then (jobs[i := slot], err)
      else DeleteFrom(jobs[i := slot], i + 1, in_)
  }

  function Abort(st: Status, jobs: JobSlots, in_: Input): (Flow, JobSlots)
    requires in_.Valid()
  {
    var (jobs1, err) := DeleteFrom(jobs, 0, in_);
    if err.Some? then (Flow(st, [], NoRequeue, Some(AbortDeleteError(err.value))), jobs1)
    else (Flow(st.(phase := Steady, target := ""), ["UpgradeAborted"], NextPass, None), jobs1)
  }

  function Drive(st: Status, jobs: JobSlots, spec: string, in_: Input): (Flow, JobSlots)
    requires in_.Valid()
  {
    if spec == st.installed then Abort(st, jobs, in_)
    else if spec != st.target then (Refused(st, "UpgradeTargetChanged", TargetChangedError), jobs)
    else
      match st.phase
      case Expanding => RunPhase(st, jobs, spec, DB_EXPAND, in_)
      case Migrating => RunPhase(st, jobs, spec, DB_MIGRATE, in_)
      case RollingUpdate =>
        (Flow(st.(ready := Condition(false, "UpgradeRollingUpdate")), [], NoRequeue, None), jobs)
      case Contracting => RunPhase(st, jobs, spec, DB_CONTRACT, in_)
      case _ => (Flow(st, [], NoRequeue, Some(UnknownPhaseError)), jobs)
  }

  function RolledOut(st: Status): (Status, seq<string>) {
    if st.phase.RollingUpdate? then (st.(phase := Contracting), ["DeploymentRolloutComplete"]) else (st, [])
  }

  // ---- flow.go ----------------------------------------------------------------------

  function SyncStep(st: Status, out: Outcome, failed: string, running: string): (Flow, bool) {
    if out.error.Some? then (Refused(st, failed, JobError(out.error.value)), false)
    else if !out.done then (Flow(st.(ready := Condition(false, running)), [], AfterInterval, None), false)
    else (Flow(st, [], NoRequeue, None), true)
  }

  function Synced(st: Status, imageTag: string): Flow {
    Flow(st.(installed := if imageTag != "" then imageTag else st.installed, ready := Condition(true, "DatabaseSynced")),
         if st.ready == Condition(true, "DatabaseSynced") then [] else ["DatabaseSynced"], NoRequeue, None)
  }

  function Sync(st: Status, jobs: JobSlots, imageTag: string, in_: Input): (Flow, JobSlots)
    requires in_.Valid()
  {
    var (jobs1, out) := Run(jobs, DB_SYNC, imageTag, in_);
    var (flow, ok) := SyncStep(st, out, "DBSyncFailed", "DBSyncInProgress");
    if !ok then (flow, jobs1)
    else if !in_.schemaCheck then (Synced(st, imageTag), jobs1)
    else
      var (jobs2, out2) := Run(jobs1, SCHEMA_CHECK, imageTag, in_);
      var (flow2, ok2) := SyncStep(st, out2, "SchemaDriftDetected", "SchemaCheckInProgress");
      (if ok2 then Synced(st, imageTag) else flow2, jobs2)
  }

  // ---- the dispatch --------------------------------------------------------------------

  function Database(st: Status, jobs: JobSlots, spec: string, in_: Input): (Flow, JobSlots)
    requires in_.Valid()
  {
    if in_.provisioned.Err? then (Flow(st, [], NoRequeue, Some(ProvisionError)), jobs)
    else if !in_.provisioned.value then
      (Flow(st.(ready := Condition(false, "WaitingForDatabase")), [], AfterInterval, None), jobs)
    else if st.phase != Steady then Drive(st, jobs, spec, in_)
    else if IsUpgrade(spec, st.installed) then (Initiate(st, spec), jobs)
    else Sync(st, jobs, spec, in_)
  }

  /** One pass: the Deployment step runs only behind a zero result. */
  function ReconcilePass(st: Status, jobs: JobSlots, spec: string, in_: Input): (Flow, JobSlots)
    requires in_.Valid()
  {
    var (flow, jobs1) := Database(st, jobs, spec, in_);
    if flow.error.Some? || flow.result != NoRequeue || !in_.rolledOut then (flow, jobs1)
    else
      var (st1, events) := RolledOut(flow.status);
      (Flow(st1, flow.events + events, if events == [] then NoRequeue else NextPass, None), jobs1)
  }

  // ---- the code, statement by statement -----------------------------------------------------

  /** The CR's upgrade fields, mutated in place, with the stores of its Jobs. */
  class UpgradeFlow {
    var phase: Phase
    var installedRelease: string
    var targetRelease: string
    var ready: Condition
    var events: seq<string>
    const stores: seq<JobStore>

    ghost predicate Valid() {
      |stores| == 5 && forall i, j :: 0 <= i < j < 5 ==> stores[i] != stores[j]
    }

    function Value(): Status reads this { Status(phase, installedRelease, targetRelease, ready) }

    /** The flow's effect, on top of the events recorded before it. */
    ghost predicate Shows(before: seq<string>, flow: Flow, result: Requeue, error: Option<FlowError>)
      reads this
    {
      && Value() == flow.status && result == flow.result && error == flow.error
      && events == before + flow.events
    }

    ghost function Slots(): JobSlots
      requires Valid()
      reads stores
    {
      seq(5, i requires 0 <= i < 5 reads stores => stores[i].State())
    }

    method SetStatus(reason: string, isTrue: bool)
      modifies this`ready
      ensures ready == Condition(isTrue, reason)
    {
      ready := Condition(isTrue, reason);
    }

    method InitiateUpgrade(spec: string) returns (result: Requeue, error: Option<FlowError>)
      modifies this
      ensures Shows(old(events), Initiate(old(Value()), spec), result, error)
    {
      var from := ParseRelease(installedRelease);
      if from.None? {
        SetStatus("VersionParseError", false);
        events := events + ["VersionParseError"];
        return NoRequeue, Some(ParseError);
      }
      var to := ParseRelease(spec);
      if to.None? {
        SetStatus("VersionParseError", false);
        events := events + ["VersionParseError"];
        return NoRequeue, Some(ParseError);
      }
      if IsDowngrade(from.value, to.value) {
        SetStatus("DowngradeNotSupported", false);
        events := events + ["DowngradeNotSupported"];
        return NoRequeue, Some(DowngradeError);
      }
      if !IsSequentialUpgrade(from.value, to.value) {
        SetStatus("UpgradePathInvalid", false);
        events := events + ["UpgradePathInvalid"];
        return NoRequeue, Some(NotSequentialError);
      }
      targetRelease := spec;
      phase := Expanding;
      SetStatus("ExpandInProgress", false);
      events := events + ["UpgradeInitiated"];
      return NextPass, None;
    }

    method RunUpgradePhase(spec: string, name: Name, in_: Input) returns (result: Requeue, error: Option<FlowError>)
      requires Valid() && in_.Valid()
      modifies this, stores[name]
      ensures Shows(old(events), RunPhase(old(Value()), old(Slots()), spec, name, in_).0, result, error)
      ensures Slots() == RunPhase(old(Value()), old(Slots()), spec, name, in_).1
    {
      var out := stores[name].RunJobWithRerunKey(in_.views[name], KeyFor(name, spec, in_), in_.faults[name]);
      assert Slots() == old(Slots())[name := stores[name].State()];
      if out.error.Some? {
        SetStatus(PhaseName(name) + "Failed", false);
        events := events + [PhaseName(name) + "Failed"];
        return NoRequeue, Some(JobError(out.error.value));
      }
      if !out.done {
        SetStatus(PhaseName(name) + "InProgress", false);
        return AfterInterval, None;
      }
      if name == DB_EXPAND {
        phase := Migrating;
        SetStatus("MigrateInProgress", false);
        events := events + ["ExpandComplete"];
        return NextPass, None;
      } else if name == DB_MIGRATE {
        phase := RollingUpdate;
        SetStatus("UpgradeRollingUpdate", false);
        events := events + ["MigrateComplete"];
        return NextPass, None;
      }
      installedRelease := targetRelease;
      targetRelease := "";
      phase := Steady;
      SetStatus("DatabaseSynced", true);
      events := events + ["UpgradeComplete"];
      return NoRequeue, None;
    }

    method DeleteUpgradeJobs(in_: Input) returns (err: Option<RunError>)
      requires Valid() && in_.Valid()
      modifies stores[DB_EXPAND], stores[DB_MIGRATE], stores[DB_CONTRACT]
      ensures (Slots(), err) == DeleteFrom(old(Slots()), 0, in_)
    {
      var i := 0;
      while i < 3
        invariant 0 <= i <= 3
        invariant DeleteFrom(Slots(), i, in_) == DeleteFrom(old(Slots()), 0, in_)
      {
        label before:
        err := stores[i].Delete(in_.faults[i].delete, in_.faults[i].lingers);
        assert Slots() == old@before(Slots())[i := stores[i].State()];
        if err.Some? && err.value != NotFound {
          return;
        }
        i := i + 1;
      }
      return None;
    }

    method AbortUpgrade(in_: Input) returns (result: Requeue, error: Option<FlowError>)
      requires Valid() && in_.Valid()
      modifies this, stores
      ensures Shows(old(events), Abort(old(Value()), old(Slots()), in_).0, result, error)
      ensures Slots() == Abort(old(Value()), old(Slots()), in_).1
    {
      var err := DeleteUpgradeJobs(in_);
      if err.Some? {
        return NoRequeue, Some(AbortDeleteError(err.value));
      }
      phase := Steady;
      targetRelease := "";
      events := events + ["UpgradeAborted"];
      return NextPass, None;
    }

    method ReconcileUpgrade(spec: string, in_: Input) returns (result: Requeue, error: Option<FlowError>)
      requires Valid() && in_.Valid()
      modifies this, stores
      ensures Shows(old(events), Drive(old(Value()), old(Slots()), spec, in_).0, result, error)
      ensures Slots() == Drive(old(Value()), old(Slots()), spec, in_).1
    {
      if spec == installedRelease {
        result, error := AbortUpgrade(in_);
        return;
      }
      if spec != targetRelease {
        SetStatus("UpgradeTargetChanged", false);
        events := events + ["UpgradeTargetChanged"];
        return NoRequeue, Some(TargetChangedError);
      }
      match phase {
        case Expanding => result, error := RunUpgradePhase(spec, DB_EXPAND, in_);
        case Migrating => result, error := RunUpgradePhase(spec, DB_MIGRATE, in_);
        case RollingUpdate =>
          SetStatus("UpgradeRollingUpdate", false);
          return NoRequeue, None;
        case Contracting => result, error := RunUpgradePhase(spec, DB_CONTRACT, in_);
        case _ => return NoRequeue, Some(UnknownPhaseError);
      }
    }

    method CompleteRollingUpdate() returns (advanced: bool)
      modifies this
      ensures Value() == RolledOut(old(Value())).0
      ensures events == old(events) + RolledOut(old(Value())).1
      ensures advanced == old(phase).RollingUpdate?
    {
      if phase != RollingUpdate {
        return false;
      }
      phase := Contracting;
      events := events + ["DeploymentRolloutComplete"];
      return true;
    }

    method ReconcileSyncJobs(imageTag: string, in_: Input) returns (result: Requeue, error: Option<FlowError>)
      requires Valid() && in_.Valid()
      modifies this, stores
      ensures Shows(old(events), Sync(old(Value()), old(Slots()), imageTag, in_).0, result, error)
      ensures Slots() == Sync(old(Value()), old(Slots()), imageTag, in_).1
    {
      var out := stores[DB_SYNC].RunJobWithRerunKey(
        in_.views[DB_SYNC], KeyFor(DB_SYNC, imageTag, in_), in_.faults[DB_SYNC]);
      assert Slots() == old(Slots())[DB_SYNC := stores[DB_SYNC].State()];
      if out.error.Some? {
        SetStatus("DBSyncFailed", false);
        events := events + ["DBSyncFailed"];
        return NoRequeue, Some(JobError(out.error.value));
      }
      if !out.done {
        SetStatus("DBSyncInProgress", false);
        return AfterInterval, None;
      }
      if in_.schemaCheck {
        label checking:
        out := stores[SCHEMA_CHECK].RunJobWithRerunKey(
          in_.views[SCHEMA_CHECK], KeyFor(SCHEMA_CHECK, imageTag, in_), in_.faults[SCHEMA_CHECK]);
        assert Slots() == old@checking(Slots())[SCHEMA_CHECK := stores[SCHEMA_CHECK].State()];
        if out.error.Some? {
          SetStatus("SchemaDriftDetected", false);
          events := events + ["SchemaDriftDetected"];
          return NoRequeue, Some(JobError(out.error.value));
        }
        if !out.done {
          SetStatus("SchemaCheckInProgress", false);
          return AfterInterval, None;
        }
      }
      if imageTag != "" {
        installedRelease := imageTag;
      }
      var synced := ready == Condition(true, "DatabaseSynced");
      SetStatus("DatabaseSynced", true);
      if !synced {
        events := events + ["DatabaseSynced"];
      }
      return NoRequeue, None;
    }

    method ReconcileDatabase(spec: string, in_: Input) returns (result: Requeue, error: Option<FlowError>)
      requires Valid() && in_.Valid()
      modifies this, stores
      ensures Shows(old(events), Database(old(Value()), old(Slots()), spec, in_).0, result, error)
      ensures Slots() == Database(old(Value()), old(Slots()), spec, in_).1
    {
      if in_.provisioned.Err? {
        return NoRequeue, Some(ProvisionError);
      }
      if !in_.provisioned.value {
        SetStatus("WaitingForDatabase", false);
        return AfterInterval, None;
      }
      if phase != Steady {
        result, error := ReconcileUpgrade(spec, in_);
        return;
      }
      if IsUpgrade(spec, installedRelease) {
        result, error := InitiateUpgrade(spec);
        return;
      }
      result, error := ReconcileSyncJobs(spec, in_);
    }
  }
}
