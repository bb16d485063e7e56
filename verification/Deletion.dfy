/** The deletion branch of a reconcile (operators/keystone/internal/controller/keystone_controller.go):
    the resolution of the children client and the sweep behind it, as one pass, and
    passes in a row as a run of Resolver. */
module Deletion {
  import opened Wrappers
  import opened Ownership
  import T = Teardown
  import R = Resolver

  /** The client the sweep gets: none for a cluster given up on. */
  function ChildrenOf(a: R.Answer): T.Children
    requires !a.Wait?
  {
    match a
    case GiveUp => T.Abandoned
    case Client(remote) => if remote then T.Remote else T.Local
  }

  /** What stays the same over the deletion of one CR. */
  datatype Target = Target(id: string, ref: Option<string>, deletedAt: int, owner: Owner, namespace: string, kinds: seq<string>)

  /** What a pass meets: the lookup, whether the named cleanup flows are done, whether
      the uncached reader resolves and whether the final update is accepted. */
  datatype Met = Met(lookup: R.Lookup, cleanedUp: bool, readerResolves: bool, updateAccepted: bool)

  /** The target resolves, or there is none, and nothing beside the sweep holds the pass
      up. */
  predicate CanFinish(t: Target, met: Met) {
    (t.ref.None? || !met.lookup.Unresolved?) && met.cleanedUp && met.readerResolves && met.updateAccepted
  }

  /** w is the state the process and the CR are in. */
  ghost predicate Shows(w: R.World, process: R.Process, cr: T.TerminatingCR, t: Target)
    reads process, cr
  {
    w.clock == process.clock && w.since == process.unresolvableSince
    && t.id in w.crs && w.crs[t.id] == R.CR(t.ref, Some(t.deletedAt), cr.finalizer)
  }

  ghost predicate IsPassOf(s: R.Step, t: Target, met: Met) {
    s.Pass? && s.id == t.id && s.lookup == met.lookup && s.reached == met.cleanedUp && s.updated == met.updateAccepted
  }

  /** One deletion pass. It is a step of Resolver with the outcome of the sweep as
      sweepOk, so the finalizer goes exactly when the pass gets to the sweep with a
      licence and the update is accepted; sweepOk says that every child the sweep
      answers for was deleted. With a cluster that resolves, or none, it does not wait,
      and the finalizer goes unless a call on the target fails. */
  method Pass(process: R.Process, cr: T.TerminatingCR, cluster: T.TargetCluster, t: Target, met: Met, ghost w: R.World)
    returns (wait: bool, ghost s: R.Step)
    requires cluster.Valid() && Shows(w, process, cr, t)
    modifies process, cr, cluster
    ensures cluster.Evolves()
    ensures IsPassOf(s, t, met) && R.Enabled(w, s) && Shows(R.Next(w, s), process, cr, t)
    ensures wait <==> R.AnswerOf(w, s).Wait?
    ensures s.sweepOk ==> T.Swept(cluster, t.owner, t.namespace, t.kinds)
    ensures CanFinish(t, met) && old(cr.finalizer) ==> !wait && (!cr.finalizer || T.Excused(cluster, t.kinds))
  {
    ghost var t0, t1, t2;
    var answer;
    answer, t0, t1, t2 := process.ResolveChildrenClientForDeletion(t.ref, met.lookup, t.deletedAt);
    s := R.Pass(t.id, met.lookup, t0, t1, t2, met.cleanedUp, false, met.updateAccepted);
    wait := answer.Wait?;
    if wait || !met.cleanedUp {
      return;
    }
    ghost var swept;
    var err;
    err, swept := cr.SweepRemoteChildren(cluster, ChildrenOf(answer), met.readerResolves, met.updateAccepted,
                                         t.owner, t.namespace, t.kinds);
    s := s.(sweepOk := swept);
  }

  // ---- passes in a row -------------------------------------------------------------------

  /** Between two passes of the CR: it is its turn, the process restarts, or another
      terminating CR is reconciled. */
  datatype Turn = Own(met: Met) | Restarted | Other(id: string, ref: Option<string>, deletedAt: int, lookup: R.Lookup, reached: bool, sweepOk: bool, updated: bool)

  /** The CRs that take a turn are terminating ones of this world. */
  ghost predicate Known(w: R.World, t: Target, turns: seq<Turn>) {
    forall i :: 0 <= i < |turns| && turns[i].Other? ==>
      turns[i].id != t.id && turns[i].id in w.crs
      && w.crs[turns[i].id].ref == turns[i].ref && w.crs[turns[i].id].deletedAt == Some(turns[i].deletedAt)
  }

  lemma RunGrows(ws: seq<R.World>, steps: seq<R.Step>, s: R.Step)
    requires R.IsRun(ws, steps) && R.Enabled(ws[|steps|], s)
    ensures R.IsRun(ws + [R.Next(ws[|steps|], s)], steps + [s])
  {
    var ws', steps' := ws + [R.Next(ws[|steps|], s)], steps + [s];
    forall i {:trigger steps'[i]} | 0 <= i < |steps'|
      ensures R.Enabled(ws'[i], steps'[i]) && ws'[i + 1] == R.Next(ws'[i], steps'[i])
    {
      if i < |steps| {
        assert ws'[i] == ws[i] && ws'[i + 1] == ws[i + 1] && steps'[i] == steps[i];
      } else {
        assert ws'[i] == ws[|steps|];
      }
    }
  }

  /** No step changes what a CR names or when it was deleted, and a CR keeps its place. */
  lemma KnownStays(w: R.World, s: R.Step, t: Target, turns: seq<Turn>)
    requires R.Enabled(w, s) && Known(w, t, turns) && (s.Pass? || s.Restart?)
    ensures Known(R.Next(w, s), t, turns)
  {}

  /** Other clients of the target first, then the turn. */
  method TakeTurn(process: R.Process, cr: T.TerminatingCR, cluster: T.TargetCluster, t: Target, turn: Turn, ghost w: R.World)
    returns (ghost s: R.Step)
    requires cluster.Valid() && Shows(w, process, cr, t) && Known(w, t, [turn])
    modifies process, cr, cluster
    ensures cluster.Evolves()
    ensures R.Enabled(w, s) && Shows(R.Next(w, s), process, cr, t) && (s.Pass? || s.Restart?)
    ensures cr.finalizer != old(cr.finalizer) ==> s.Pass? && s.id == t.id
    ensures s.Pass? && s.id == t.id && s.sweepOk ==> T.Swept(cluster, t.owner, t.namespace, t.kinds)
    ensures turn.Own? && CanFinish(t, turn.met) && old(cr.finalizer) ==> !cr.finalizer || T.Excused(cluster, t.kinds)
  {
    cluster.Interfere();
    match turn
    case Own(met) =>
      var wait;
      wait, s := Pass(process, cr, cluster, t, met, w);
    case Restarted =>
      process.unresolvableSince := map[];
      s := R.Restart;
    case Other(id, ref, deletedAt, lookup, reached, sweepOk, updated) =>
      assert [turn][0] == turn;
      ghost var t0, t1, t2;
      var answer;
      answer, t0, t1, t2 := process.ResolveChildrenClientForDeletion(ref, lookup, deletedAt);
      s := R.Pass(id, lookup, t0, t1, t2, reached, sweepOk, updated);
  }

  /** Why the finalizer went at step n of a run. */
  ghost predicate Justified(ws: seq<R.World>, steps: seq<R.Step>, n: nat, t: Target, swept: bool)
    requires R.IsRun(ws, steps) && n < |steps| && steps[n].Pass?
  {
    || swept
    || t.ref.None? || steps[n].lookup.Absent?
    || (steps[n].t2 - t.deletedAt >= R.ABANDON_AFTER
        && exists m :: 0 <= m <= n && R.FailsToResolve(ws, steps, m, t.ref.value)
                       && steps[n].t1 - steps[m].t0 >= R.ABANDON_AFTER && R.KeepsFailing(ws, steps, m, n + 1, t.ref.value))
  }

  lemma ReleaseIsJustified(ws: seq<R.World>, steps: seq<R.Step>, n: nat, t: Target, swept: bool)
    requires R.IsRun(ws, steps) && n < |steps| && steps[n].Pass? && steps[n].id == t.id
    requires R.Releases(ws[n], steps[n]) && ws[n].crs[t.id].ref == t.ref && ws[n].crs[t.id].deletedAt == Some(t.deletedAt)
    requires steps[n].sweepOk ==> swept
    ensures Justified(ws, steps, n, t, swept)
  {
    var m := R.ReleasedOnlyWithLicence(ws, steps, n);
  }

  /** The deletion of a CR, from a fresh process on and over any turns: passes that
      fail anywhere, restarts, other CRs on the same cluster and other clients of the
      target. When the finalizer has gone, then every child the sweep answers for
      that was live at the beginning was deleted and any other live one terminates or
      appeared meanwhile; or there was no target cluster to sweep; or the CR had been
      terminating for both windows with no resolution in the second. And it does go in
      the first pass that can finish, unless a call on the target fails. */
  method DeleteOver(process: R.Process, cr: T.TerminatingCR, cluster: T.TargetCluster, t: Target, turns: seq<Turn>, ghost w0: R.World)
    returns (ghost ws: seq<R.World>, ghost steps: seq<R.Step>)
    requires cluster.Valid() && cr.finalizer && Shows(w0, process, cr, t) && w0.since == map[] && Known(w0, t, turns)
    modifies process, cr, cluster
    ensures cluster.Evolves()
    ensures R.IsRun(ws, steps) && ws[0] == w0 && Shows(ws[|steps|], process, cr, t)
    ensures !cr.finalizer ==>
              |steps| > 0 && steps[|steps| - 1].Pass?
              && Justified(ws, steps, |steps| - 1, t, T.Swept(cluster, t.owner, t.namespace, t.kinds))
    ensures cr.finalizer && (exists i :: 0 <= i < |turns| && turns[i].Own? && CanFinish(t, turns[i].met)) ==>
              T.Excused(cluster, t.kinds)
  {
    ws, steps := [w0], [];
    for i := 0 to |turns|
      invariant cluster.Evolves() && cr.finalizer
      invariant R.IsRun(ws, steps) && ws[0] == w0
      invariant Shows(ws[|steps|], process, cr, t) && Known(ws[|steps|], t, turns)
      invariant (exists k :: 0 <= k < i && turns[k].Own? && CanFinish(t, turns[k].met)) ==> T.Excused(cluster, t.kinds)
    {
      ghost var w := ws[|steps|];
      ghost var s := TakeTurn(process, cr, cluster, t, turns[i], w);
      KnownStays(w, s, t, turns);
      RunGrows(ws, steps, s);
      ws, steps := ws + [R.Next(w, s)], steps + [s];
      if !cr.finalizer {
        ghost var n := |steps| - 1;
        assert ws[n] == w && R.Releases(w, s);
        ReleaseIsJustified(ws, steps, n, t, T.Swept(cluster, t.owner, t.namespace, t.kinds));
        return;
      }
    }
  }
}
