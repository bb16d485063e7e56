/** Which Job runs an upgrade may count (internal/common/database/upgrade.go): the key
    tells the release and the configuration, not the upgrade, so a run from before the
    upgrade counts exactly when a Job of that key was left that is or can still become
    complete. */
module OldRuns {
  import opened Wrappers
  import opened Upgrade
  import opened UpgradeRuns
  import J = Jobs

  // ---- one pass ---------------------------------------------------------------------

  function PhaseOf(name: Name): Phase
    requires name <= 2
  {
    if name == DB_EXPAND then Expanding else if name == DB_MIGRATE then Migrating else Contracting
  }

  /** A phase advances exactly when its Get succeeds and shows the owner's Job complete
      under the key of the current template: when that Job ran is not asked. */
  lemma PhaseAdvancesIff(st: Status, jobs: JobSlots, spec: string, name: Name, in_: Input)
    requires in_.Valid() && name <= 2 && st.phase == PhaseOf(name)
    ensures RunPhase(st, jobs, spec, name, in_).0.status.phase != st.phase
            <==> !in_.faults[name].getFails && SawComplete(in_, name, spec)
  {
    var (jobs1, out) := Run(jobs, name, spec, in_);
    assert out.done <==> !in_.faults[name].getFails && SawComplete(in_, name, spec);
  }

  // ---- what was left ----------------------------------------------------------------

  /** The key of a template for release t, in some configuration. */
  ghost predicate KeyFits(key: string, name: Name, t: string) {
    exists rest :: key == PodSpecHash(Template(name, t, rest))
  }

  /** Some version of a Job of the owner for t is complete, or is live and not yet
      terminal. */
  ghost predicate CanCount(h: J.History, name: Name, t: string) {
    exists j :: j in h.seen && j.claimable && KeyFits(J.StoredKey(j), name, t)
                && (J.Terminal(j.conditions).RanToCompletion?
                    || (h.slot.live == Some(j) && J.Terminal(j.conditions).NotTerminal?))
  }

  /** No Job for t older than bound is complete or can become so. */
  ghost predicate Settled(h: J.History, bound: nat, name: Name, t: string) {
    bound <= h.slot.nextUid
    && forall j :: j in h.seen && j.claimable && j.uid < bound && KeyFits(J.StoredKey(j), name, t) ==>
         !J.Terminal(j.conditions).RanToCompletion?
         && (h.slot.live == Some(j) ==> !J.Terminal(j.conditions).NotTerminal?)
  }

  lemma CallKeepsSettled(h: J.History, after: J.Slot, key: Option<string>, bound: nat, name: Name, t: string,
                         spec: string, in_: Input)
    requires in_.Valid() && J.Inv(h) && Settled(h, bound, name, t)
    requires OneJobCall(h.slot, after, name, spec, in_)
    ensures Settled(J.Record(h, after, key), bound, name, t)
  {}

  lemma EventKeepsSettled(h: J.History, event: J.Step, bound: nat, name: Name, t: string)
    requires J.Inv(h) && Settled(h, bound, name, t) && J.Enabled(h, event) && !event.Pass?
    ensures Settled(J.Next(h, event), bound, name, t)
  {}

  lemma StepKeepsSettled(w: World, s: Step, bound: nat, name: Name, t: string)
    requires w.Valid() && Enabled(w, s) && JobsOk(w) && Settled(w.jobs[name], bound, name, t)
    ensures Settled(Next(w, s).jobs[name], bound, name, t)
  {
    match s
    case EditSpec(_) =>
    case JobEvent(other, event) =>
      if other == name {
        EventKeepsSettled(w.jobs[name], event, bound, name, t);
      }
    case Pass(read, in_, _) =>
      var spec := w.hist[read].spec;
      var slots := FlowOf(w, s).1;
      PassIsOneCallEach(w.hist[read].status, w.Slots(), spec, in_);
      assert OneJobCall(w.Slots()[name], slots[name], name, spec, in_);
      CallKeepsSettled(w.jobs[name], slots[name], Some(KeyFor(name, spec, in_)), bound, name, t, spec, in_);
  }

  lemma NothingLeftSettles(h: J.History, name: Name, t: string)
    requires J.Inv(h) && !CanCount(h, name, t)
    ensures Settled(h, h.slot.nextUid, name, t)
  {}

  lemma {:induction false} SettledInEveryRun(ws: seq<World>, steps: seq<Step>, first: nat, n: nat, name: Name, t: string)
    requires IsRun(ws, steps) && first <= n <= |steps| && !CanCount(ws[first].jobs[name], name, t)
    ensures Settled(ws[n].jobs[name], ws[first].jobs[name].slot.nextUid, name, t)
    decreases n
  {
    if first == n {
      JobsInEveryRun(ws, steps, n);
      NothingLeftSettles(ws[n].jobs[name], name, t);
    } else {
      SettledInEveryRun(ws, steps, first, n - 1, name, t);
      JobsInEveryRun(ws, steps, n - 1);
      var w, s := ws[n - 1], steps[n - 1];
      assert w.Valid() && Enabled(w, s) && ws[n] == Next(w, s);
      StepKeepsSettled(w, s, ws[first].jobs[name].slot.nextUid, name, t);
    }
  }

  // ---- exactly when an old run counts --------------------------------------------------

  /** Over runs: when nothing that can count was left at step first, every Complete
      observed for t from there on is of a Job created since. */
  lemma OldRunNeverCounts(ws: seq<World>, steps: seq<Step>, first: nat, n: nat, name: Name, t: string)
    requires IsRun(ws, steps) && first <= n < |steps| && !CanCount(ws[first].jobs[name], name, t)
    requires steps[n].Pass? && Enabled(ws[n], steps[n]) && SawComplete(steps[n].in_, name, t)
    ensures steps[n].in_.views[name].value.uid >= ws[first].jobs[name].slot.nextUid
  {
    SettledInEveryRun(ws, steps, first, n, name, t);
    var j := steps[n].in_.views[name].value;
    assert J.Readable(ws[n].jobs[name], steps[n].in_.views[name]);
    assert KeyFits(J.StoredKey(j), name, t);
  }

  function Quiet(rest: string, name: Name, j: J.Job): Input {
    var none: Option<J.Job> := None;
    Input(rest, seq(5, i => none)[name := Some(j)],
          seq(5, i => J.Faults(false, J.Answered, false, false, J.Answered)), false, Ok(true), false)
  }

  lemma OldRunAdvances(w: World, name: Name, t: string, j: J.Job, rest: string)
    requires w.Valid() && name <= 2
    requires w.Current().spec == w.Current().status.target == t != w.Current().status.installed
    requires w.Current().status.phase == PhaseOf(name)
    requires j in w.jobs[name].seen && j.claimable && J.Terminal(j.conditions).RanToCompletion?
    requires J.StoredKey(j) == PodSpecHash(Template(name, t, rest))
    ensures var s := Pass(|w.hist| - 1, Quiet(rest, name, j), true);
            Enabled(w, s) && SawComplete(s.in_, name, t)
            && Next(w, s).Current().status.phase != w.Current().status.phase
  {
    var in_ := Quiet(rest, name, j);
    var s := Pass(|w.hist| - 1, in_, true);
    assert SawComplete(in_, name, t);
    PhaseAdvancesIff(w.Current().status, w.Slots(), t, name, in_);
    var st := w.Current().status;
    assert Drive(st, w.Slots(), t, in_) == RunPhase(st, w.Slots(), t, name, in_);
  }

  lemma LiveCompletes(w: World, name: Name, j: J.Job) returns (e: Step, done: J.Job)
    requires w.Valid() && w.jobs[name].slot.live == Some(j) && J.Terminal(j.conditions).NotTerminal?
    ensures e.JobEvent? && Enabled(w, e) && Next(w, e).hist == w.hist && Next(w, e).Valid()
    ensures done in Next(w, e).jobs[name].seen && J.Terminal(done.conditions).RanToCompletion?
    ensures done.uid == j.uid && done.claimable == j.claimable && J.StoredKey(done) == J.StoredKey(j)
  {
    var cs := [J.JobCondition(J.JobComplete, true, 0)];
    assert J.HasTrue(cs, J.JobComplete) by { assert cs[0].isTrue; }
    e := JobEvent(name, J.Progress(cs));
    done := j.(conditions := cs);
  }

  lemma LeftIsOld(h: J.History, j: J.Job)
    requires J.Inv(h) && j in h.seen
    ensures j.uid < h.slot.nextUid
  {}

  lemma WhatWasLeft(h: J.History, name: Name, t: string) returns (j: J.Job, rest: string)
    requires CanCount(h, name, t)
    ensures j in h.seen && j.claimable && J.StoredKey(j) == PodSpecHash(Template(name, t, rest))
    ensures J.Terminal(j.conditions).RanToCompletion? || (h.slot.live == Some(j) && J.Terminal(j.conditions).NotTerminal?)
  {
    j :| j in h.seen && j.claimable && KeyFits(J.StoredKey(j), name, t)
         && (J.Terminal(j.conditions).RanToCompletion?
             || (h.slot.live == Some(j) && J.Terminal(j.conditions).NotTerminal?));
    rest :| J.StoredKey(j) == PodSpecHash(Template(name, t, rest));
  }

  /** And when something was left, it can: the Job may first run to completion, then a
      pass that reads it advances the phase on a run older than any Job to come. */
  lemma OldRunCanCount(w: World, name: Name, t: string) returns (w': World, s: Step)
    requires w.Valid() && JobsOk(w) && name <= 2 && CanCount(w.jobs[name], name, t)
    requires w.Current().spec == w.Current().status.target == t != w.Current().status.installed
    requires w.Current().status.phase == PhaseOf(name)
    ensures w' == w || exists e: Step :: e.JobEvent? && Enabled(w, e) && w' == Next(w, e)
    ensures w'.Valid() && Enabled(w', s) && s.Pass? && s.lands
    ensures SawComplete(s.in_, name, t) && s.in_.views[name].value.uid < w.jobs[name].slot.nextUid
    ensures Next(w', s).Current().status.phase != w.Current().status.phase
  {
    var h := w.jobs[name];
    var j, rest := WhatWasLeft(h, name, t);
    LeftIsOld(h, j);
    w' := w;
    if !J.Terminal(j.conditions).RanToCompletion? {
      var e;
      e, j := LiveCompletes(w, name, j);
      w' := Next(w, e);
    }
    OldRunAdvances(w', name, t, j, rest);
    s := Pass(|w'.hist| - 1, Quiet(rest, name, j), true);
  }

  /** So the marker reaches T on runs of Jobs created since the upgrade to T began, for
      every phase whose Job name had nothing left that can count. */
  lemma PromotedOnFreshRuns(ws: seq<World>, steps: seq<Step>, n: nat) returns (a: nat, b: nat, c: nat)
    requires IsRun(ws, steps) && n < |steps|
    requires ws[n].Current().status.target != ""
    requires ws[n + 1].Current().status.installed != ws[n].Current().status.installed
    ensures a < b < c < n && Landed(Currents(ws), steps, a, Steady)
    ensures var t := ws[n].Current().status.target;
            LandedSeeing(Currents(ws), steps, b, Expanding, DB_EXPAND, t)
            && LandedSeeing(Currents(ws), steps, c, Migrating, DB_MIGRATE, t)
            && LandedSeeing(Currents(ws), steps, n, Contracting, DB_CONTRACT, t)
            && (!CanCount(ws[a].jobs[DB_EXPAND], DB_EXPAND, t) ==>
                  steps[b].in_.views[DB_EXPAND].value.uid >= ws[a].jobs[DB_EXPAND].slot.nextUid)
            && (!CanCount(ws[a].jobs[DB_MIGRATE], DB_MIGRATE, t) ==>
                  steps[c].in_.views[DB_MIGRATE].value.uid >= ws[a].jobs[DB_MIGRATE].slot.nextUid)
            && (!CanCount(ws[a].jobs[DB_CONTRACT], DB_CONTRACT, t) ==>
                  steps[n].in_.views[DB_CONTRACT].value.uid >= ws[a].jobs[DB_CONTRACT].slot.nextUid)
  {
    var d;
    a, b, c, d := PromotedOnlyAfterAllPhases(ws, steps, n);
    var t := ws[n].Current().status.target;
    if !CanCount(ws[a].jobs[DB_EXPAND], DB_EXPAND, t) {
      OldRunNeverCounts(ws, steps, a, b, DB_EXPAND, t);
    }
    if !CanCount(ws[a].jobs[DB_MIGRATE], DB_MIGRATE, t) {
      OldRunNeverCounts(ws, steps, a, c, DB_MIGRATE, t);
    }
    if !CanCount(ws[a].jobs[DB_CONTRACT], DB_CONTRACT, t) {
      OldRunNeverCounts(ws, steps, a, n, DB_CONTRACT, t);
    }
  }
}
