/** The re-run gate of a fixed-name Job (internal/common/job/job.go), against an
    API server that may refuse a call, lose its answer, or let a deleted Job
    linger, and a cache that may answer Get with any earlier version. */
module Jobs {
  import opened Wrappers

  // ---- terminal state ---------------------------------------------------

  datatype ConditionType = JobComplete | JobFailed | JobSuspended | JobFailureTarget | JobSuccessCriteriaMet

  datatype JobCondition = JobCondition(ctype: ConditionType, isTrue: bool, transitionAt: int)

  /** The empty condition type, JobComplete and JobFailed. */
  datatype Verdict = NotTerminal | RanToCompletion | PermanentlyFailed

  predicate HasTrue(cs: seq<JobCondition>, t: ConditionType) {
    exists i :: 0 <= i < |cs| && cs[i].isTrue && cs[i].ctype == t
  }

  function Terminal(cs: seq<JobCondition>): Verdict {
    if HasTrue(cs, JobFailed) then PermanentlyFailed
    else if HasTrue(cs, JobComplete) then RanToCompletion
    else NotTerminal
  }

  lemma HasTrueOneMore(cs: seq<JobCondition>, i: nat)
    requires i < |cs|
    ensures forall t :: HasTrue(cs[..i + 1], t) <==> HasTrue(cs[..i], t) || (cs[i].isTrue && cs[i].ctype == t)
  {
    forall t ensures HasTrue(cs[..i + 1], t) <==> HasTrue(cs[..i], t) || (cs[i].isTrue && cs[i].ctype == t) {
      assert cs[..i + 1][i] == cs[i];
      assert forall k :: 0 <= k < i ==> cs[..i + 1][k] == cs[..i][k];
    }
  }

  /** The scan over the slice: Failed wins wherever the two conditions sit. */
  method TerminalCondition(cs: seq<JobCondition>) returns (v: Verdict)
    ensures v == Terminal(cs)
  {
    v := NotTerminal;
    for i := 0 to |cs|
      invariant !HasTrue(cs[..i], JobFailed)
      invariant v == if HasTrue(cs[..i], JobComplete) then RanToCompletion else NotTerminal
    {
      HasTrueOneMore(cs, i);
      if !cs[i].isTrue {
        continue;
      }
      match cs[i].ctype {
        case JobFailed => return PermanentlyFailed;
        case JobComplete => v := RanToCompletion;
        case _ =>
      }
    }
    assert cs[..|cs|] == cs;
  }

  /** The verdict does not depend on the order of the conditions. */
  lemma TerminalIgnoresOrder(a: seq<JobCondition>, b: seq<JobCondition>)
    requires multiset(a) == multiset(b)
    ensures Terminal(a) == Terminal(b)
  {
    forall t ensures HasTrue(a, t) == HasTrue(b, t) {
      assert forall c :: c in a <==> c in multiset(a);
      assert forall c :: c in b <==> c in multiset(b);
      assert HasTrue(a, t) <==> exists c :: c in a && c.isTrue && c.ctype == t;
      assert HasTrue(b, t) <==> exists c :: c in b && c.isTrue && c.ctype == t;
    }
  }

  /** One true Failed condition decides, wherever it stands and whatever else is true;
      Complete decides without one, and nothing else does. */
  lemma FailedWins(cs: seq<JobCondition>, c: JobCondition)
    requires c in cs && c.isTrue
    ensures c.ctype.JobFailed? ==> Terminal(cs).PermanentlyFailed?
    ensures c.ctype.JobComplete? ==> !Terminal(cs).NotTerminal?
    ensures (forall d :: d in cs && d.isTrue ==> d.ctype == c.ctype) ==>
              match c.ctype
              case JobFailed => Terminal(cs).PermanentlyFailed?
              case JobComplete => Terminal(cs).RanToCompletion?
              case _ => Terminal(cs).NotTerminal?
  {
    var i :| 0 <= i < |cs| && cs[i] == c;
  }

  // ---- one Job name on the API server -------------------------------------

  /** annotation is the value of cobaltcore.c5c3.io/pod-spec-hash, claimable says
      whether multicluster.Claim accepts the Job for this owner. */
  datatype Job = Job(uid: nat, annotation: Option<string>, conditions: seq<JobCondition>,
                     deleting: bool, claimable: bool)

  datatype Slot = Slot(live: Option<Job>, nextUid: nat)

  /** Refused fails without an effect; Lost has its effect and fails. */
  datatype Fate = Answered | Refused | Lost

  datatype Faults = Faults(getFails: bool, delete: Fate, lingers: bool, crashed: bool, create: Fate)

  datatype RunError = GetFailed | ClaimRefused | PermanentFailure | NotFound | DeleteFailed | CreateFailed | Crashed

  /** The three results of RunJob. */
  datatype Outcome = Outcome(done: bool, observed: Option<Job>, error: Option<RunError>)

  /** A missing annotation reads as the empty string. */
  function StoredKey(j: Job): string { if j.annotation.Some? then j.annotation.value else "" }

  /** Create: an existing Job of the name, terminating or not, is AlreadyExists,
      which counts as success. */
  function CreateJob(s: Slot, key: string, fate: Fate): (Slot, Option<RunError>) {
    if fate.Refused? then (s, Some(CreateFailed))
    else if s.live.Some? then (s, if fate.Lost? then Some(CreateFailed) else None)
    else (Slot(Some(Job(s.nextUid, Some(key), [], false, true)), s.nextUid + 1),
          if fate.Lost? then Some(CreateFailed) else None)
  }

  /** Delete by name with background propagation: the Job is gone at once, or
      stays as a terminating one until its finalizers are released. */
  function DeleteJob(s: Slot, fate: Fate, lingers: bool): (Slot, Option<RunError>) {
    if fate.Refused? then (s, Some(DeleteFailed))
    else if s.live.None? then (s, Some(if fate.Lost? then DeleteFailed else NotFound))
    else
      (s.(live := if lingers then Some(s.live.value.(deleting := true)) else None),
       if fate.Lost? then Some(DeleteFailed) else None)
  }

  function RecreateJob(s: Slot, key: string, f: Faults): (Slot, Option<RunError>) {
    var (s1, err) := DeleteJob(s, f.delete, f.lingers);
    if err.Some? then (s1, err)
    else if f.crashed then (s1, Some(Crashed))
    else CreateJob(s1, key, f.create)
  }

  /** RunJobWithRerunKey; view is what Get answered. */
  function RunJob(s: Slot, view: Option<Job>, key: string, f: Faults): (Slot, Outcome) {
    if f.getFails then (s, Outcome(false, None, Some(GetFailed)))
    else if view.None? then
      var (s1, err) := CreateJob(s, key, f.create);
      (s1, Outcome(false, None, err))
    else if !view.value.claimable then (s, Outcome(false, None, Some(ClaimRefused)))
    else if Terminal(view.value.conditions).NotTerminal? then (s, Outcome(false, view, None))
    else if key != StoredKey(view.value) then
      var (s1, err) := RecreateJob(s, key, f);
      (s1, Outcome(false, view, err))
    else if Terminal(view.value.conditions).PermanentlyFailed? then
      (s, Outcome(false, view, Some(PermanentFailure)))
    else (s, Outcome(true, view, None))
  }

  // ---- what one pass promises ------------------------------------------------

  /** A Job nobody created yet is created: live, the owner's, not yet terminal and
      under the key of the pass, unless the API server refuses. */
  lemma AbsentIsCreated(s: Slot, key: string, f: Faults)
    requires s.live.None? && !f.getFails && !f.create.Refused?
    ensures var s' := RunJob(s, None, key, f).0;
            && s'.nextUid == s.nextUid + 1
            && s'.live.Some? && s'.live.value.uid == s.nextUid && StoredKey(s'.live.value) == key
            && s'.live.value.claimable && !s'.live.value.deleting && Terminal(s'.live.value.conditions).NotTerminal?
  {}

  /** The Job read is the owner's and has ended. */
  predicate ReadEnded(view: Option<Job>, f: Faults) {
    !f.getFails && view.Some? && view.value.claimable && !Terminal(view.value.conditions).NotTerminal?
  }

  /** The guard of the branch that replaces a Job, as one pass meets it: the Job it
      read is the owner's, terminal and of another key, and the delete goes through. */
  predicate Disturbs(view: Option<Job>, key: string, f: Faults) {
    !f.getFails && view.Some? && view.value.claimable && !Terminal(view.value.conditions).NotTerminal?
    && StoredKey(view.value) != key && !f.delete.Refused?
  }

  /** Replacing a Job is one delete that finds it and one create that goes through. */
  predicate Replaces(s: Slot, f: Faults) {
    s.live.Some? && f.delete.Answered? && !f.crashed && f.create.Answered?
  }

  /** Exactly when a pass makes a new Job: none is there and it read none, or it
      replaces one that is gone after the delete. */
  lemma CreatesIff(s: Slot, view: Option<Job>, key: string, f: Faults)
    ensures RunJob(s, view, key, f).0.nextUid == s.nextUid + 1
            <==> !f.getFails && !f.create.Refused?
                 && if view.None? then s.live.None?
                    else Disturbs(view, key, f) && s.live.Some? && f.delete.Answered? && !f.lingers && !f.crashed
    ensures RunJob(s, view, key, f).0.nextUid in {s.nextUid, s.nextUid + 1}
  {}

  /** Exactly when a pass is done, when it fails and when it has to wait. A refused
      claim and a permanent failure under the current key are failures; a new key
      forgives the failure of the old one. */
  lemma AnswersIff(s: Slot, view: Option<Job>, key: string, f: Faults)
    ensures var out := RunJob(s, view, key, f).1;
            && (out.done <==> ReadEnded(view, f) && StoredKey(view.value) == key
                              && Terminal(view.value.conditions).RanToCompletion?)
            && (out.error == Some(PermanentFailure)
                <==> ReadEnded(view, f) && StoredKey(view.value) == key
                     && Terminal(view.value.conditions).PermanentlyFailed?)
            && (out.error.Some?
                <==> || f.getFails
                     || (view.None? && !f.create.Answered?)
                     || (view.Some? && !view.value.claimable)
                     || (ReadEnded(view, f) && StoredKey(view.value) != key && !Replaces(s, f))
                     || (ReadEnded(view, f) && StoredKey(view.value) == key
                         && Terminal(view.value.conditions).PermanentlyFailed?))
            && (out.done ==> out.error.None?)
            && (out.observed.Some? ==> out.observed == view)
            && (out.observed.None? <==> f.getFails || view.None? || !view.value.claimable)
  {}

  /** A finished Job without the annotation, or with the key of another template, is
      never taken for the current one. */
  lemma UnannotatedIsNeverDone(s: Slot, view: Option<Job>, key: string, f: Faults)
    requires view.Some? && key != "" && (view.value.annotation.Some? ==> view.value.annotation.value != key)
    ensures !RunJob(s, view, key, f).1.done
    ensures ReadEnded(view, f) && !f.delete.Refused? ==> Disturbs(view, key, f)
  {}

  // ---- the code, statement by statement --------------------------------------

  /** The store behind the client for one Job name. */
  class JobStore {
    var live: Option<Job>
    var nextUid: nat

    function State(): Slot reads this { Slot(live, nextUid) }

    method Create(key: string, fate: Fate) returns (err: Option<RunError>)
      modifies this
      ensures (State(), err) == CreateJob(old(State()), key, fate)
    {
      if fate.Refused? {
        return Some(CreateFailed);
      }
      if live.None? {
        live := Some(Job(nextUid, Some(key), [], false, true));
        nextUid := nextUid + 1;
      }
      err := if fate.Lost? then Some(CreateFailed) else None;
    }

    method Delete(fate: Fate, lingers: bool) returns (err: Option<RunError>)
      modifies this
      ensures (State(), err) == DeleteJob(old(State()), fate, lingers)
    {
      if fate.Refused? {
        return Some(DeleteFailed);
      }
      if live.None? {
        return Some(if fate.Lost? then DeleteFailed else NotFound);
      }
      live := if lingers then Some(live.value.(deleting := true)) else None;
      err := if fate.Lost? then Some(DeleteFailed) else None;
    }

    method RecreateStaleJob(key: string, f: Faults) returns (err: Option<RunError>)
      modifies this
      ensures (State(), err) == RecreateJob(old(State()), key, f)
    {
      err := Delete(f.delete, f.lingers);
      if err.Some? {
        return;
      }
      if f.crashed {
        return Some(Crashed);
      }
      err := Create(key, f.create);
    }

    method RunJobWithRerunKey(view: Option<Job>, key: string, f: Faults) returns (out: Outcome)
      modifies this
      ensures (State(), out) == RunJob(old(State()), view, key, f)
    {
      if f.getFails {
        return Outcome(false, None, Some(GetFailed));
      }
      if view.None? {
        var err := Create(key, f.create);
        return Outcome(false, None, err);
      }
      var existing := view.value;
      if !existing.claimable {
        return Outcome(false, None, Some(ClaimRefused));
      }
      var verdict := TerminalCondition(existing.conditions);
      if verdict == PermanentlyFailed {
        if key != StoredKey(existing) {
          var err := RecreateStaleJob(key, f);
          return Outcome(false, view, err);
        }
        return Outcome(false, view, Some(PermanentFailure));
      }
      if verdict == RanToCompletion {
        if key != StoredKey(existing) {
          var err := RecreateStaleJob(key, f);
          return Outcome(false, view, err);
        }
        return Outcome(true, view, None);
      }
      return Outcome(false, view, None);
    }
  }

  // ---- runs ------------------------------------------------------------------

  /** A slot with what happened under its name: every version any read may still
      answer with, the key of the pass that created each UID, and the UIDs whose
      Job ran to completion. */
  datatype History = History(slot: Slot, seen: set<Job>, keyOf: map<nat, string>, completed: set<nat>)

  const Empty := History(Slot(None, 0), {}, map[], {})

  datatype Step =
    | Pass(view: Option<Job>, key: string, faults: Faults)
    | Progress(conditions: seq<JobCondition>)
    | Vanish
    | ExternalDelete(lingers: bool)
    | ForeignCreate(annotation: Option<string>, conditions: seq<JobCondition>)

  predicate Readable(h: History, view: Option<Job>) { view.Some? ==> view.value in h.seen }

  predicate Enabled(h: History, step: Step) {
    match step
    case Pass(view, _, _) => Readable(h, view)
    case Progress(_) => h.slot.live.Some? && Terminal(h.slot.live.value.conditions).NotTerminal?
    case Vanish => h.slot.live.Some? && h.slot.live.value.deleting
    case ExternalDelete(_) => h.slot.live.Some?
    case ForeignCreate(_, _) => h.slot.live.None?
  }

  /** Records the slot's new content; key is the key of the pass, if it was one. */
  function Record(h: History, s: Slot, key: Option<string>): History {
    History(
      s,
      h.seen + (if s.live.Some? then {s.live.value} else {}),
      if key.Some? && s.nextUid > h.slot.nextUid then h.keyOf[h.slot.nextUid := key.value] else h.keyOf,
      h.completed)
  }

  function Next(h: History, step: Step): History
    requires Enabled(h, step)
  {
    match step
    case Pass(view, key, f) => Record(h, RunJob(h.slot, view, key, f).0, Some(key))
    case Progress(cs) =>
      var j := h.slot.live.value.(conditions := cs);
      var h1 := Record(h, h.slot.(live := Some(j)), None);
      if Terminal(cs).RanToCompletion? then h1.(completed := h1.completed + {j.uid}) else h1
    case Vanish => Record(h, h.slot.(live := None), None)
    case ExternalDelete(lingers) => Record(h, DeleteJob(h.slot, Answered, lingers).0, None)
    case ForeignCreate(annotation, cs) =>
      Record(h, Slot(Some(Job(h.slot.nextUid, annotation, cs, false, false)), h.slot.nextUid + 1), None)
  }

  ghost predicate Inv(h: History) {
    && (h.slot.live.Some? ==> h.slot.live.value in h.seen)
    && (forall uid :: uid in h.keyOf ==> uid < h.slot.nextUid)
    && (forall j :: j in h.seen ==>
          && j.uid < h.slot.nextUid
          && (j.claimable ==>
                && j.uid in h.keyOf && j.annotation == Some(h.keyOf[j.uid])
                && (Terminal(j.conditions).RanToCompletion? ==> j.uid in h.completed)))
  }

  /** Every Job of the name carries the key of the pass that created it, across
      crashes between delete and create, AlreadyExists, lingering Jobs and stale
      reads; a Job seen complete did run to completion. */
  lemma StepKeepsKeys(h: History, step: Step)
    requires Inv(h) && Enabled(h, step)
    ensures Inv(Next(h, step))
    ensures forall uid :: uid in h.keyOf ==> uid in Next(h, step).keyOf && Next(h, step).keyOf[uid] == h.keyOf[uid]
    ensures h.completed <= Next(h, step).completed
    ensures h.seen <= Next(h, step).seen
  {
  }

  /** A pass answers done for a key only if a Job created for that key, by this
      operator, ran to completion; nothing else was deleted or created by it. */
  lemma DoneMeansCompleted(h: History, view: Option<Job>, key: string, f: Faults)
    requires Inv(h) && Readable(h, view)
    requires RunJob(h.slot, view, key, f).1.done
    ensures view.Some? && view.value.uid in h.keyOf
    ensures h.keyOf[view.value.uid] == key && view.value.uid in h.completed
    ensures RunJob(h.slot, view, key, f).0 == h.slot
  {
  }

  // A run, with the history before each step.

  ghost predicate IsRun(hs: seq<History>, steps: seq<Step>) {
    && |hs| == |steps| + 1
    && hs[0] == Empty
    && forall i {:trigger steps[i]} :: 0 <= i < |steps| ==> Enabled(hs[i], steps[i]) && hs[i + 1] == Next(hs[i], steps[i])
  }

  lemma {:induction false} RunKeepsKeys(hs: seq<History>, steps: seq<Step>, n: nat)
    requires IsRun(hs, steps) && n <= |steps|
    ensures Inv(hs[n])
  {
    if n > 0 {
      RunKeepsKeys(hs, steps, n - 1);
      StepKeepsKeys(hs[n - 1], steps[n - 1]);
    }
  }

  /** Over every run: done for a key was earned by a completed Job of that key. */
  lemma DoneInEveryRun(hs: seq<History>, steps: seq<Step>, n: nat)
    requires IsRun(hs, steps) && n < |steps|
    requires steps[n].Pass?
    requires RunJob(hs[n].slot, steps[n].view, steps[n].key, steps[n].faults).1.done
    ensures exists uid :: uid in hs[n].keyOf && hs[n].keyOf[uid] == steps[n].key && uid in hs[n].completed
  {
    RunKeepsKeys(hs, steps, n);
    DoneMeansCompleted(hs[n], steps[n].view, steps[n].key, steps[n].faults);
  }

  /** Whatever a pass read, it changes a live Job nobody is deleting exactly when it
      meets that guard. */
  lemma ChangesIffDisturbs(s: Slot, view: Option<Job>, key: string, f: Faults)
    requires s.live.Some? && !s.live.value.deleting
    ensures RunJob(s, view, key, f).0 != s <==> Disturbs(view, key, f)
  {}

  /** While the key is unchanged that takes a read of another Job than the live one:
      no version of the live Job has another key, however stale. */
  lemma OnlyAnotherJobDisturbs(h: History, view: Option<Job>, key: string, f: Faults)
    requires Inv(h) && Readable(h, view) && Disturbs(view, key, f)
    requires h.slot.live.Some? && h.slot.live.value.claimable && StoredKey(h.slot.live.value) == key
    ensures view.value.uid != h.slot.live.value.uid
  {
    assert h.slot.live.value in h.seen && view.value in h.seen;
  }

  /** A step that leaves a terminal Job alone. */
  predicate Harmless(step: Step) {
    match step
    case Pass(view, key, f) => !Disturbs(view, key, f)
    case ExternalDelete(_) => false
    case _ => true
  }

  /** From any point of any run and however long the stretch, whatever keys passes
      carry, whatever they read and whatever fails: a terminal Job is neither deleted
      nor run again exactly as long as no pass meets the guard and nobody outside
      deletes it. */
  lemma {:induction false} TerminalJobStays(hs: seq<History>, steps: seq<Step>, first: nat, last: nat)
    requires IsRun(hs, steps) && first <= last <= |steps|
    requires hs[first].slot.live.Some?
    requires var j := hs[first].slot.live.value; !j.deleting && !Terminal(j.conditions).NotTerminal?
    ensures (forall k :: first <= k <= last ==> hs[k].slot == hs[first].slot)
            <==> forall i :: first <= i < last ==> Harmless(steps[i])
    decreases last
  {
    if last > first {
      TerminalJobStays(hs, steps, first, last - 1);
      var h, step := hs[last - 1], steps[last - 1];
      assert Enabled(h, step) && hs[last] == Next(h, step);
      if h.slot == hs[first].slot && step.Pass? {
        ChangesIffDisturbs(h.slot, step.view, step.key, step.faults);
      }
    }
  }

  /** Passes carry the key and read any version of that Job, or none. */
  predicate SameJob(step: Step, uid: nat, key: string) {
    match step
    case Pass(view, k, _) => k == key && (view.Some? ==> view.value.uid == uid)
    case ExternalDelete(_) => false
    case _ => true
  }

  /** So while the key is unchanged a terminal Job is never deleted or run again,
      whatever fails and however stale the reads, as long as they show no other Job. */
  lemma {:induction false} SameKeyNeverReruns(hs: seq<History>, steps: seq<Step>, first: nat, last: nat, key: string)
    requires IsRun(hs, steps) && first <= last <= |steps|
    requires hs[first].slot.live.Some?
    requires var j := hs[first].slot.live.value;
             !j.deleting && j.claimable && !Terminal(j.conditions).NotTerminal? && StoredKey(j) == key
    requires forall i :: first <= i < last ==> SameJob(steps[i], hs[first].slot.live.value.uid, key)
    ensures forall k :: first <= k <= last ==> hs[k].slot == hs[first].slot
    decreases last
  {
    if last > first {
      SameKeyNeverReruns(hs, steps, first, last - 1, key);
      var h, step := hs[last - 1], steps[last - 1];
      assert Enabled(h, step) && hs[last] == Next(h, step) && SameJob(step, h.slot.live.value.uid, key);
      if step.Pass? {
        RunKeepsKeys(hs, steps, last - 1);
        ChangesIffDisturbs(h.slot, step.view, step.key, step.faults);
        if Disturbs(step.view, step.key, step.faults) {
          OnlyAnotherJobDisturbs(h, step.view, step.key, step.faults);
        }
      }
    }
  }

  /** The guard is met by a stale read of the Job of an earlier key: the delete goes
      by name, so that pass removes the current one. */
  lemma StaleReadDeletesCurrentJob()
    ensures var stale := Job(0, Some("k1"), [JobCondition(JobComplete, true, 0)], false, true);
            var cur := Job(1, Some("k2"), [JobCondition(JobComplete, true, 0)], false, true);
            RunJob(Slot(Some(cur), 2), Some(stale), "k2", Faults(false, Answered, false, false, Answered)).0
            == Slot(Some(Job(2, Some("k2"), [], false, true)), 3)
  {
    var cs := [JobCondition(JobComplete, true, 0)];
    assert HasTrue(cs, JobComplete) by { assert cs[0].isTrue; }
  }
  // ---- progress ----------------------------------------------------------------------

  const NoFaults := Faults(false, Answered, false, false, Answered)

  const DoneConditions := [JobCondition(JobComplete, true, 0)]

  predicate Running(h: History) {
    h.slot.live.Some? && Terminal(h.slot.live.value.conditions).NotTerminal?
  }

  /** One quiet round: a pass that reads the live Job and meets no fault, then the Job
      that is live runs to completion. */
  function Round(h: History, key: string): History
    requires Inv(h)
  {
    var h1 := Next(h, Pass(h.slot.live, key, NoFaults));
    if Running(h1) then Next(h1, Progress(DoneConditions)) else h1
  }

  lemma CompleteIsTerminal()
    ensures Terminal(DoneConditions).RanToCompletion?
  {
    assert DoneConditions[0].isTrue;
  }

  /** What a quiet round leaves: a completed Job of the pass's key, or of the key it
      already ran under. */
  lemma RoundCompletes(h: History, key: string)
    requires Inv(h) && (h.slot.live.Some? ==> h.slot.live.value.claimable && !h.slot.live.value.deleting)
    requires h.slot.live.Some? && StoredKey(h.slot.live.value) == key ==>
               !Terminal(h.slot.live.value.conditions).PermanentlyFailed?
    ensures var h' := Round(h, key);
            && Inv(h') && h'.slot.live.Some? && h'.slot.live.value.claimable && !h'.slot.live.value.deleting
            && Terminal(h'.slot.live.value.conditions).RanToCompletion?
            && (Running(h) || StoredKey(h'.slot.live.value) == key)
  {
    CompleteIsTerminal();
    var h1 := Next(h, Pass(h.slot.live, key, NoFaults));
    StepKeepsKeys(h, Pass(h.slot.live, key, NoFaults));
    if Running(h1) {
      StepKeepsKeys(h1, Progress(DoneConditions));
    }
  }

  /** From any state, with no Job or one of the owner's in any condition but a
      permanent failure under the current key, two quiet rounds are enough: the pass
      after them answers done. */
  lemma TwoQuietRoundsFinish(h: History, key: string)
    requires Inv(h) && (h.slot.live.Some? ==> h.slot.live.value.claimable && !h.slot.live.value.deleting)
    requires h.slot.live.Some? && StoredKey(h.slot.live.value) == key ==>
               !Terminal(h.slot.live.value.conditions).PermanentlyFailed?
    ensures Inv(Round(h, key))
    ensures var h2 := Round(Round(h, key), key);
            RunJob(h2.slot, h2.slot.live, key, NoFaults).1.done
  {
    RoundCompletes(h, key);
    RoundCompletes(Round(h, key), key);
  }
}
