/** When a terminating CR gives its target cluster up (internal/common/multicluster/resolver.go)
    and so releases the remote-children finalizer without a sweep. */
module Resolver {
  import opened Wrappers

  /** Five minutes, in nanoseconds. */
  const ABANDON_AFTER: int := 300_000_000_000

  /** GetCluster's answer for a named cluster; Absent is an operator without a
      multicluster manager. */
  datatype Lookup = Absent | Found | Unresolved

  /** (client, false), (nil, true) and (nil, false). */
  datatype Answer = Client(remote: bool) | Wait | GiveUp

  /** ResolveChildrenClientForDeletion: the map afterwards and the answer. The
      clock is read when a first failure is recorded and once per window. */
  function Resolve(since: map<string, int>, ref: Option<string>, lookup: Lookup, deletedAt: int,
                   t0: int, t1: int, t2: int): (map<string, int>, Answer)
  {
    if ref.None? then (since, Client(false))
    else if !lookup.Unresolved? then (since - {ref.value}, Client(lookup.Found?))
    else
      var first := if ref.value in since then since[ref.value] else t0;
      (since[ref.value := first],
       if t1 - first < ABANDON_AFTER || t2 - deletedAt < ABANDON_AFTER then Wait else GiveUp)
  }

  /** Five minutes since the first failed resolution, this one if none is recorded,
      and five since the deletion. */
  predicate BothPassed(since: map<string, int>, name: string, deletedAt: int, t0: int, t1: int, t2: int) {
    && t1 >= (if name in since then since[name] else t0) + ABANDON_AFTER
    && t2 >= deletedAt + ABANDON_AFTER
  }

  /** Which answer a lookup gets. A cluster that resolves is always handed out, and its
      record is dropped; a pass waits or gives up only on one that does not. */
  lemma AnswersIff(since: map<string, int>, ref: Option<string>, lookup: Lookup, deletedAt: int, t0: int, t1: int, t2: int)
    ensures var (after, answer) := Resolve(since, ref, lookup, deletedAt, t0, t1, t2);
            && (answer == Client(true) <==> ref.Some? && lookup.Found?)
            && (answer == Client(false) <==> ref.None? || lookup.Absent?)
            && (answer.GiveUp? <==> ref.Some? && lookup.Unresolved? && BothPassed(since, ref.value, deletedAt, t0, t1, t2))
            && (answer.Wait? <==> ref.Some? && lookup.Unresolved? && !BothPassed(since, ref.value, deletedAt, t0, t1, t2))
            && (forall name :: Some(name) != ref ==> (name in after <==> name in since) && (name in since ==> after[name] == since[name]))
            && (ref.Some? ==> (ref.value in after <==> lookup.Unresolved?))
  {}

  // ---- the code, statement by statement --------------------------------------------------

  /** The per-process record and the clock it is kept by. */
  class Process {
    var clock: int
    var unresolvableSince: map<string, int>

    /** time.Now, on a clock that does not go back. */
    method Now() returns (t: int)
      modifies this`clock
      ensures old(clock) <= t == clock
    {
      t :| t >= clock;
      clock := t;
    }

    method FirstUnresolvable(name: string) returns (since: int, ghost now: int)
      modifies this
      ensures old(clock) <= now <= clock
      ensures since == if name in old(unresolvableSince) then old(unresolvableSince)[name] else now
      ensures unresolvableSince == old(unresolvableSince)[name := since]
    {
      now := clock;
      if name in unresolvableSince {
        since := unresolvableSince[name];
        assert unresolvableSince == unresolvableSince[name := since];
      } else {
        since := Now();
        now := since;
        unresolvableSince := unresolvableSince[name := since];
      }
    }

    method ForgetUnresolvable(name: string)
      modifies this`unresolvableSince
      ensures unresolvableSince == old(unresolvableSince) - {name}
    {
      unresolvableSince := unresolvableSince - {name};
    }

    method ResolveChildrenClientForDeletion(ref: Option<string>, lookup: Lookup, deletedAt: int)
      returns (answer: Answer, ghost t0: int, ghost t1: int, ghost t2: int)
      modifies this
      ensures old(clock) <= t0 <= t1 <= t2 == clock
      ensures (unresolvableSince, answer) == Resolve(old(unresolvableSince), ref, lookup, deletedAt, t0, t1, t2)
    {
      t0, t1, t2 := clock, clock, clock;
      if ref.None? || !lookup.Unresolved? {
        if ref.Some? {
          ForgetUnresolvable(ref.value);
        }
        return Client(ref.Some? && lookup.Found?), t0, t1, t2;
      }
      var first;
      first, t0 := FirstUnresolvable(ref.value);
      var now := Now();
      t1, t2 := now, now;
      if now - first < ABANDON_AFTER {
        return Wait, t0, t1, t2;
      }
      now := Now();
      t2 := now;
      if now - deletedAt < ABANDON_AFTER {
        return Wait, t0, t1, t2;
      }
      return GiveUp, t0, t1, t2;
    }
  }

  // ---- runs ------------------------------------------------------------------------------

  /** The target reference never changes. */
  datatype CR = CR(ref: Option<string>, deletedAt: Option<int>, finalizer: bool)

  datatype World = World(clock: int, since: map<string, int>, crs: map<string, CR>)

  /** A pass of a terminating CR: what GetCluster answers, when the clock is
      read, whether the cleanup ahead of the sweep is done, whether the sweep of
      every kind returned success and whether the final update is accepted. */
  datatype Step =
    | Create(id: string, cr: CR)
    | Delete(id: string, at: int)
    | Restart
    | Pass(id: string, lookup: Lookup, t0: int, t1: int, t2: int, reached: bool, sweepOk: bool, updated: bool)

  predicate Enabled(w: World, s: Step) {
    match s
    case Create(id, cr) => id !in w.crs && cr.deletedAt.None?
    case Delete(id, _) => id in w.crs && w.crs[id].deletedAt.None?
    case Restart => true
    case Pass(id, _, t0, t1, t2, _, _, _) => id in w.crs && w.crs[id].deletedAt.Some? && w.clock <= t0 <= t1 <= t2
  }

  function AnswerOf(w: World, s: Step): Answer
    requires s.Pass? && Enabled(w, s)
  {
    Resolve(w.since, w.crs[s.id].ref, s.lookup, w.crs[s.id].deletedAt.value, s.t0, s.t1, s.t2).1
  }

  /** The licence to release the finalizer: a cluster given up on, none to sweep, or a
      sweep that succeeded. */
  predicate Licensed(a: Answer, sweepOk: bool) {
    a.GiveUp? || a == Client(false) || (a == Client(true) && sweepOk)
  }

  /** The finalizer goes when the pass gets to it with a licence and the update
      is accepted. */
  predicate Releases(w: World, s: Step)
    requires s.Pass? && Enabled(w, s)
  {
    w.crs[s.id].finalizer && s.reached && s.updated && Licensed(AnswerOf(w, s), s.sweepOk)
  }

  function Next(w: World, s: Step): World
    requires Enabled(w, s)
  {
    match s
    case Create(id, cr) => w.(crs := w.crs[id := cr])
    case Delete(id, at) => w.(crs := w.crs[id := w.crs[id].(deletedAt := Some(at))])
    case Restart => w.(since := map[])
    case Pass(id, lookup, t0, t1, t2, _, _, _) =>
      World(t2, Resolve(w.since, w.crs[id].ref, lookup, w.crs[id].deletedAt.value, t0, t1, t2).0,
            if Releases(w, s) then w.crs[id := w.crs[id].(finalizer := false)] else w.crs)
  }

  ghost predicate IsRun(ws: seq<World>, steps: seq<Step>) {
    && |ws| == |steps| + 1 && ws[0].since == map[]
    && forall i {:trigger steps[i]} :: 0 <= i < |steps| ==> Enabled(ws[i], steps[i]) && ws[i + 1] == Next(ws[i], steps[i])
  }

  /** Step i is a deletion pass of some CR on that cluster. */
  ghost predicate Resolves(ws: seq<World>, steps: seq<Step>, i: nat, name: string)
    requires IsRun(ws, steps) && i < |steps|
  {
    steps[i].Pass? && ws[i].crs[steps[i].id].ref == Some(name)
  }

  ghost predicate FailsToResolve(ws: seq<World>, steps: seq<Step>, i: nat, name: string)
    requires IsRun(ws, steps) && i < |steps|
  {
    Resolves(ws, steps, i, name) && steps[i].lookup.Unresolved?
  }

  /** From step a up to step b the process is the same one and every deletion
      pass on the cluster failed to resolve it. */
  ghost predicate KeepsFailing(ws: seq<World>, steps: seq<Step>, a: nat, b: nat, name: string)
    requires IsRun(ws, steps) && b <= |steps|
  {
    forall i {:trigger steps[i]} :: a <= i < b ==>
      !steps[i].Restart? && (Resolves(ws, steps, i, name) ==> FailsToResolve(ws, steps, i, name))
  }

  ghost predicate TimeOk(w: World) { forall name :: name in w.since ==> w.since[name] <= w.clock }

  lemma {:induction false} ClockInEveryRun(ws: seq<World>, steps: seq<Step>, n: nat)
    requires IsRun(ws, steps) && n <= |steps|
    ensures TimeOk(ws[n])
  {
    if n > 0 {
      ClockInEveryRun(ws, steps, n - 1);
      assert ws[n] == Next(ws[n - 1], steps[n - 1]);
    }
  }

  lemma KeepsFailingOneMore(ws: seq<World>, steps: seq<Step>, a: nat, b: nat, name: string)
    requires IsRun(ws, steps) && a <= b < |steps| && !steps[b].Restart?
    requires Resolves(ws, steps, b, name) ==> FailsToResolve(ws, steps, b, name)
    requires KeepsFailing(ws, steps, a, b, name)
    ensures KeepsFailing(ws, steps, a, b + 1, name)
  {
  }

  /** An entry of the record was written by a failed pass of this process, and
      every later pass on that cluster failed too. */
  lemma {:induction false} RecordedByFailure(ws: seq<World>, steps: seq<Step>, n: nat, name: string) returns (m: nat)
    requires IsRun(ws, steps) && n <= |steps| && name in ws[n].since
    ensures m < n && FailsToResolve(ws, steps, m, name) && steps[m].t0 == ws[n].since[name]
    ensures KeepsFailing(ws, steps, m, n, name)
  {
    assert n > 0 && ws[n] == Next(ws[n - 1], steps[n - 1]);
    if name in ws[n - 1].since {
      m := RecordedByFailure(ws, steps, n - 1, name);
    } else {
      m := n - 1;
    }
    KeepsFailingOneMore(ws, steps, m, n - 1, name);
  }

  /** Safety. In every run, with restarts and many CRs per cluster, the finalizer
      is released only behind a sweep of every kind that returned success (or
      with no target cluster to sweep), or when the CR had been terminating for
      AbandonAfter and this process had a failed resolution at least
      AbandonAfter before, with every later one failing too. */
  lemma ReleasedOnlyWithLicence(ws: seq<World>, steps: seq<Step>, n: nat) returns (m: nat)
    requires IsRun(ws, steps) && n < |steps|
    requires steps[n].Pass? && Releases(ws[n], steps[n])
    ensures var s, cr := steps[n], ws[n].crs[steps[n].id];
            || (AnswerOf(ws[n], s) == Client(true) && s.sweepOk)
            || (AnswerOf(ws[n], s) == Client(false) && (cr.ref.None? || s.lookup.Absent?))
            || (&& cr.ref.Some? && s.t2 - cr.deletedAt.value >= ABANDON_AFTER
                && m <= n && FailsToResolve(ws, steps, m, cr.ref.value) && s.t1 - steps[m].t0 >= ABANDON_AFTER
                && KeepsFailing(ws, steps, m, n + 1, cr.ref.value))
  {
    m := n;
    var cr := ws[n].crs[steps[n].id];
    if cr.ref.Some? && cr.ref.value in ws[n].since {
      m := RecordedByFailure(ws, steps, n, cr.ref.value);
    }
    if AnswerOf(ws[n], steps[n]).GiveUp? {
      KeepsFailingOneMore(ws, steps, m, n, cr.ref.value);
    }
  }

  lemma {:induction false} RecordSurvives(ws: seq<World>, steps: seq<Step>, m: nat, n: nat, name: string)
    requires IsRun(ws, steps) && m < n <= |steps|
    requires FailsToResolve(ws, steps, m, name) && KeepsFailing(ws, steps, m, n, name)
    ensures name in ws[n].since && ws[n].since[name] <= steps[m].t0
    decreases n
  {
    assert ws[n] == Next(ws[n - 1], steps[n - 1]);
    if m < n - 1 {
      RecordSurvives(ws, steps, m, n - 1, name);
    } else {
      ClockInEveryRun(ws, steps, m);
    }
  }

  /** Progress. Once both windows have passed without a resolution or a restart,
      the next pass that gets there releases the finalizer. */
  lemma BothWindowsRelease(ws: seq<World>, steps: seq<Step>, m: nat, n: nat, name: string)
    requires IsRun(ws, steps) && m < n < |steps|
    requires FailsToResolve(ws, steps, m, name) && KeepsFailing(ws, steps, m, n, name)
    requires FailsToResolve(ws, steps, n, name) && ws[n].crs[steps[n].id].finalizer
    requires steps[n].t1 - steps[m].t0 >= ABANDON_AFTER
    requires steps[n].t2 - ws[n].crs[steps[n].id].deletedAt.value >= ABANDON_AFTER
    requires steps[n].reached && steps[n].updated
    ensures steps[n].id in ws[n + 1].crs && !ws[n + 1].crs[steps[n].id].finalizer
  {
    RecordSurvives(ws, steps, m, n, name);
    assert ws[n + 1] == Next(ws[n], steps[n]);
  }

  /** Neither window alone is enough: the first failed pass of a process always
      waits, however long the CR has been terminating, unless the clock moves by
      AbandonAfter within the pass. */
  lemma FreshProcessWaits(w: World, s: Step)
    requires s.Pass? && Enabled(w, s) && w.crs[s.id].ref.Some? && s.lookup.Unresolved?
    requires w.crs[s.id].ref.value !in w.since && s.t1 - s.t0 < ABANDON_AFTER
    ensures AnswerOf(w, s).Wait? && Next(w, s).crs == w.crs
  {
  }
  /** And no window holds up the ordinary deletion: a pass whose cluster resolves, or
      that has none, releases the finalizer when it gets there and its sweep and its
      update succeed, whatever failed before. */
  lemma ReachableIsReleased(w: World, s: Step)
    requires s.Pass? && Enabled(w, s) && s.reached && s.updated
    requires w.crs[s.id].ref.None? || s.lookup.Absent? || (s.lookup.Found? && s.sweepOk)
    ensures !Next(w, s).crs[s.id].finalizer
  {
    AnswersIff(w.since, w.crs[s.id].ref, s.lookup, w.crs[s.id].deletedAt.value, s.t0, s.t1, s.t2);
  }
}
