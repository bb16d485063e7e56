/** Once-per-Job metric emission (internal/common/job/terminal.go): a dedupe
    annotation per phase on the owner CR, patched under an optimistic lock before
    the metric is recorded. */
module TerminalMetric {
  import opened Wrappers
  import opened Text
  import opened Jobs

  /** The parts of the owner's metadata the function reads and writes. */
  datatype Meta = Meta(version: nat, annotations: map<string, string>)

  datatype Observed = Observed(uid: string, conditions: seq<JobCondition>, createdAt: int)

  /** Lost: the patch is applied but the call returns an error. */
  datatype PatchFate = Delivered | Failed | ResponseLost

  datatype Emission = Emission(suffix: string, uid: string, succeeded: bool, duration: int)

  function AnnotationKey(suffix: string): string {
    "cobaltcore.c5c3.io/last-" + suffix + "-job-uid"
  }

  /** Each phase has an annotation of its own. */
  lemma KeysApart(a: string, b: string)
    ensures AnnotationKey(a) == AnnotationKey(b) ==> a == b
  {
    var p, q := "cobaltcore.c5c3.io/last-", "-job-uid";
    var x, y := AnnotationKey(a), AnnotationKey(b);
    assert a == x[|p|..|x| - |q|] && b == y[|p|..|y| - |q|];
  }

  // ---- what one call does ---------------------------------------------------------

  function TransitionAt(cs: seq<JobCondition>, t: ConditionType): int {
    if cs == [] then 0
    else if cs[0].ctype == t && cs[0].isTrue then cs[0].transitionAt
    else TransitionAt(cs[1..], t)
  }

  /** A merge patch of one annotation with the read version as precondition. */
  function Patch(server: Meta, snap: Meta, key: string, uid: string, fate: PatchFate): (Meta, bool) {
    if fate.Failed? || snap.version != server.version then (server, false)
    else if key in server.annotations && server.annotations[key] == uid then (server, fate.Delivered?)
    else (Meta(server.version + 1, server.annotations[key := uid]), fate.Delivered?)
  }

  /** RecordJobTerminalState: the server and the caller's copy afterwards, and
      the emission, if there is one. */
  function RecordTerminal(server: Meta, snap: Meta, suffix: string, observed: Option<Observed>, fate: PatchFate)
    : (Meta, Meta, Option<Emission>)
  {
    if observed.None? || Terminal(observed.value.conditions).NotTerminal? then (server, snap, None)
    else
      var job, key := observed.value, AnnotationKey(suffix);
      if job.uid != "" && Lookup(snap.annotations, key) == job.uid then (server, snap, None)
      else
        var (server1, ok) := Patch(server, snap, key, job.uid, fate);
        if !ok then (server1, snap, None)
        else
          var failed := Terminal(job.conditions).PermanentlyFailed?;
          var d := TransitionAt(job.conditions, if failed then JobFailed else JobComplete) - job.createdAt;
          (server1, Meta(server1.version, snap.annotations[key := job.uid]),
           Some(Emission(suffix, job.uid, !failed, if d < 0 then 0 else d)))
  }

  /** The time and verdict of the first true condition of the type that decided. */
  ghost predicate DecidedAt(cs: seq<JobCondition>, t: ConditionType, at: int) {
    exists i :: 0 <= i < |cs| && cs[i].isTrue && cs[i].ctype == t && cs[i].transitionAt == at
                && forall k :: 0 <= k < i ==> !(cs[k].isTrue && cs[k].ctype == t)
  }

  lemma {:induction false} TransitionIsFirst(cs: seq<JobCondition>, t: ConditionType)
    requires HasTrue(cs, t)
    ensures DecidedAt(cs, t, TransitionAt(cs, t))
  {
    if !(cs[0].ctype == t && cs[0].isTrue) {
      var k :| 0 <= k < |cs| && cs[k].isTrue && cs[k].ctype == t;
      assert cs[1..][k - 1] == cs[k];
      TransitionIsFirst(cs[1..], t);
      var i :| 0 <= i < |cs[1..]| && cs[1..][i].isTrue && cs[1..][i].ctype == t
               && cs[1..][i].transitionAt == TransitionAt(cs, t)
               && forall k :: 0 <= k < i ==> !(cs[1..][k].isTrue && cs[1..][k].ctype == t);
      assert cs[i + 1] == cs[1..][i];
      forall k | 0 <= k < i + 1 ensures !(cs[k].isTrue && cs[k].ctype == t) {
        if k > 0 {
          assert cs[k] == cs[1..][k - 1];
        }
      }
    }
  }

  /** d is the time from the Job's creation to the condition that decided. */
  ghost predicate Took(job: Observed, t: ConditionType, d: int) {
    exists at :: DecidedAt(job.conditions, t, at) && d == if at > job.createdAt then at - job.createdAt else 0
  }

  /** What a call that emits tells, and what it leaves: the Job shown, failed if a
      Failed condition is true, timed up to the condition that decided and never below
      zero; and the caller's copy holds the server's version and mark, so its next write
      is no conflict. */
  lemma EmissionTells(server: Meta, snap: Meta, suffix: string, job: Observed, fate: PatchFate)
    requires RecordTerminal(server, snap, suffix, Some(job), fate).2.Some?
    ensures var (server1, copy, e) := RecordTerminal(server, snap, suffix, Some(job), fate);
            && e.value.suffix == suffix && e.value.uid == job.uid
            && (e.value.succeeded <==> Terminal(job.conditions).RanToCompletion?)
            && Took(job, if e.value.succeeded then JobComplete else JobFailed, e.value.duration)
            && copy.version == server1.version
            && Lookup(copy.annotations, AnnotationKey(suffix)) == Lookup(server1.annotations, AnnotationKey(suffix)) == job.uid
            && (snap == server ==> copy == server1)
  {
    var t := if Terminal(job.conditions).PermanentlyFailed? then JobFailed else JobComplete;
    TransitionIsFirst(job.conditions, t);
  }

  /** And a call emits exactly when its Job has ended, its mark is another one in the
      copy, and the patch from that copy is delivered; else the copy is as it was. */
  lemma EmitsIff(server: Meta, snap: Meta, suffix: string, observed: Option<Observed>, fate: PatchFate)
    ensures var (server1, copy, e) := RecordTerminal(server, snap, suffix, observed, fate);
            && (e.Some? <==> observed.Some? && !Terminal(observed.value.conditions).NotTerminal?
                             && (observed.value.uid == "" || Lookup(snap.annotations, AnnotationKey(suffix)) != observed.value.uid)
                             && fate.Delivered? && snap.version == server.version)
            && (e.None? ==> copy == snap)
            && (server1 != server ==> snap.version == server.version && !fate.Failed?)
  {}

  // ---- the code, statement by statement ----------------------------------------------

  class ManagementCluster {
    var version: nat
    var annotations: map<string, string>

    function State(): Meta reads this { Meta(version, annotations) }

    method PatchAnnotation(snap: Meta, key: string, uid: string, fate: PatchFate) returns (ok: bool)
      modifies this
      ensures (State(), ok) == Patch(old(State()), snap, key, uid, fate)
    {
      if fate.Failed? || snap.version != version {
        return false;
      }
      if !(key in annotations && annotations[key] == uid) {
        annotations := annotations[key := uid];
        version := version + 1;
      }
      ok := fate.Delivered?;
    }
  }

  /** The owner object as the reconcile holds it. */
  class OwnerCopy {
    var version: nat
    var annotations: map<string, string>

    function State(): Meta reads this { Meta(version, annotations) }

    method RecordJobTerminalState(cluster: ManagementCluster, suffix: string, observed: Option<Observed>, fate: PatchFate)
      returns (recorded: Option<Emission>)
      modifies this, cluster
      ensures (cluster.State(), State(), recorded)
           == RecordTerminal(old(cluster.State()), old(State()), suffix, observed, fate)
    {
      if observed.None? {
        return None;
      }
      var job := observed.value;
      var key := AnnotationKey(suffix);
      var verdict := TerminalCondition(job.conditions);
      if verdict == NotTerminal {
        return None;
      }
      var terminal := if verdict == PermanentlyFailed then JobFailed else JobComplete;
      var transitionAt := 0;
      var i := 0;
      while i < |job.conditions|
        invariant 0 <= i <= |job.conditions|
        invariant transitionAt == 0
        invariant TransitionAt(job.conditions[i..], terminal) == TransitionAt(job.conditions, terminal)
      {
        if job.conditions[i].ctype == terminal && job.conditions[i].isTrue {
          transitionAt := job.conditions[i].transitionAt;
          break;
        }
        assert job.conditions[i..][1..] == job.conditions[i + 1..];
        i := i + 1;
      }
      assert transitionAt == TransitionAt(job.conditions, terminal);
      if job.uid != "" && Lookup(annotations, key) == job.uid {
        return None;
      }
      var ok := cluster.PatchAnnotation(State(), key, job.uid, fate);
      if !ok {
        return None;
      }
      annotations := annotations[key := job.uid];
      version := cluster.version;
      var duration := transitionAt - job.createdAt;
      if duration < 0 {
        duration := 0;
      }
      return Some(Emission(suffix, job.uid, verdict != PermanentlyFailed, duration));
    }
  }

  // ---- runs -----------------------------------------------------------------------------

  datatype Step =
    | Call(snap: Meta, suffix: string, observed: Option<Observed>, fate: PatchFate)
    | OtherWrite(annotations: map<string, string>)

  /** past holds every version the CR had, so a call can work from an arbitrarily
      stale one. log lists the emissions, obs the terminal Jobs shown to calls as
      (suffix, UID), lost the suffixes with a lost answer since their last
      emission. */
  datatype World = World(server: Meta, past: set<Meta>, log: seq<Emission>,
                         obs: seq<(string, string)>, lost: set<string>)

  ghost predicate Initial(w: World) { w == World(w.server, {w.server}, [], [], {}) }

  /** Another writer of the CR leaves the dedupe annotations alone. */
  ghost predicate Enabled(w: World, s: Step) {
    match s
    case Call(snap, _, _, _) => snap in w.past
    case OtherWrite(annotations) =>
      forall suffix :: Lookup(annotations, AnnotationKey(suffix)) == Lookup(w.server.annotations, AnnotationKey(suffix))
  }

  predicate ShowsTerminal(s: Step) {
    s.Call? && s.observed.Some? && !Terminal(s.observed.value.conditions).NotTerminal?
  }

  function Next(w: World, s: Step): World {
    match s
    case OtherWrite(annotations) =>
      var m := Meta(w.server.version + 1, annotations);
      w.(server := m, past := w.past + {m})
    case Call(snap, suffix, observed, fate) =>
      var (server, copy, e) := RecordTerminal(w.server, snap, suffix, observed, fate);
      World(server, w.past + {server, copy},
            if e.Some? then w.log + [e.value] else w.log,
            if ShowsTerminal(s) then w.obs + [(suffix, observed.value.uid)] else w.obs,
            if e.Some? then w.lost - {suffix} else if fate.ResponseLost? then w.lost + {suffix} else w.lost)
  }

  /** UID of the last emission for a suffix. */
  function LastUid(log: seq<Emission>, suffix: string): Option<string> {
    if log == [] then None
    else if log[|log| - 1].suffix == suffix then Some(log[|log| - 1].uid)
    else LastUid(log[..|log| - 1], suffix)
  }

  function Marked(w: World, suffix: string): string { Lookup(w.server.annotations, AnnotationKey(suffix)) }

  /** Versions identify contents, and unless an answer was lost the annotation
      holds the UID emitted last. */
  ghost predicate Inv(w: World) {
    && w.server in w.past
    && (forall m :: m in w.past ==> m.version < w.server.version || m == w.server)
    && (forall suffix {:trigger LastUid(w.log, suffix)} ::
          LastUid(w.log, suffix).Some? && suffix !in w.lost ==> Marked(w, suffix) == LastUid(w.log, suffix).value)
  }

  lemma LastUidOfAppend(log: seq<Emission>, e: Emission)
    ensures forall suffix {:trigger LastUid(log + [e], suffix)} ::
              LastUid(log + [e], suffix) == if e.suffix == suffix then Some(e.uid) else LastUid(log, suffix)
  {
    assert (log + [e])[..|log|] == log;
  }

  /** A call touches the mark of its own suffix only. */
  lemma CallMarks(w: World, s: Step)
    requires Inv(w) && Enabled(w, s) && s.Call?
    ensures forall suffix :: suffix != s.suffix ==> Marked(Next(w, s), suffix) == Marked(w, suffix)
    ensures Next(w, s).server == w.server || (ShowsTerminal(s) && Marked(Next(w, s), s.suffix) == s.observed.value.uid)
    ensures Next(w, s).log != w.log ==>
              && ShowsTerminal(s) && s.snap == w.server
              && Next(w, s).log == w.log + [Next(w, s).log[|w.log|]]
              && Next(w, s).log[|w.log|].suffix == s.suffix && Next(w, s).log[|w.log|].uid == s.observed.value.uid
              && Marked(Next(w, s), s.suffix) == s.observed.value.uid
              && (s.observed.value.uid != "" ==> Marked(w, s.suffix) != s.observed.value.uid)
  {
    forall suffix | suffix != s.suffix ensures Marked(Next(w, s), suffix) == Marked(w, suffix) {
      KeysApart(suffix, s.suffix);
    }
  }

  lemma CallKeepsInv(w: World, s: Step)
    requires Inv(w) && Enabled(w, s) && s.Call?
    ensures Inv(Next(w, s))
  {
    CallMarks(w, s);
    var w' := Next(w, s);
    if w'.log != w.log {
      LastUidOfAppend(w.log, w'.log[|w.log|]);
    }
  }

  lemma StepKeepsInv(w: World, s: Step)
    requires Inv(w) && Enabled(w, s)
    ensures Inv(Next(w, s))
  {
    if s.Call? {
      CallKeepsInv(w, s);
    }
  }

  ghost predicate IsRun(ws: seq<World>, steps: seq<Step>) {
    && |ws| == |steps| + 1 && Initial(ws[0])
    && forall i {:trigger steps[i]} :: 0 <= i < |steps| ==> Enabled(ws[i], steps[i]) && ws[i + 1] == Next(ws[i], steps[i])
  }

  lemma {:induction false} InvInEveryRun(ws: seq<World>, steps: seq<Step>, n: nat)
    requires IsRun(ws, steps) && n <= |steps|
    ensures Inv(ws[n])
  {
    if n > 0 {
      InvInEveryRun(ws, steps, n - 1);
      assert ws[n] == Next(ws[n - 1], steps[n - 1]);
      StepKeepsInv(ws[n - 1], steps[n - 1]);
    }
  }

  /** With stale snapshots and failing patches, an emission repeats the UID the
      suffix emitted last only if an answer for that suffix was lost in between;
      so without lost answers no two consecutive emissions carry the same UID. */
  lemma ConsecutiveEmissionsDiffer(ws: seq<World>, steps: seq<Step>, n: nat)
    requires IsRun(ws, steps) && n < |steps| && |ws[n].log| < |ws[n + 1].log|
    ensures var e := ws[n + 1].log[|ws[n].log|];
            e.uid != "" && LastUid(ws[n].log, e.suffix) == Some(e.uid) ==> e.suffix in ws[n].lost
  {
    InvInEveryRun(ws, steps, n);
    CallMarks(ws[n], steps[n]);
    assert ws[n + 1] == Next(ws[n], steps[n]);
  }

  lemma {:induction false} NothingLost(ws: seq<World>, steps: seq<Step>, n: nat)
    requires IsRun(ws, steps) && n <= |steps|
    requires forall i :: 0 <= i < |steps| && steps[i].Call? ==> !steps[i].fate.ResponseLost?
    ensures ws[n].lost == {}
  {
    if n > 0 {
      NothingLost(ws, steps, n - 1);
      assert ws[n] == Next(ws[n - 1], steps[n - 1]);
    }
  }

  /** The exact condition, per call: a delivered call from the current version
      that shows the suffix's last UID emits it again iff the mark was moved on,
      which takes a lost answer. */
  lemma RepeatsExactlyWhenMarkMoved(w: World, suffix: string, job: Observed)
    requires Inv(w) && job.uid != "" && !Terminal(job.conditions).NotTerminal?
    requires LastUid(w.log, suffix) == Some(job.uid)
    ensures RecordTerminal(w.server, w.server, suffix, Some(job), Delivered).2.Some? <==> Marked(w, suffix) != job.uid
    ensures Marked(w, suffix) != job.uid ==> suffix in w.lost
  {
  }

  /** Step i is a call of the suffix whose patch was applied. */
  ghost predicate Patches(ws: seq<World>, steps: seq<Step>, i: nat, suffix: string)
    requires IsRun(ws, steps) && i < |steps|
  {
    steps[i].Call? && steps[i].suffix == suffix && ws[i + 1].server != ws[i].server
  }

  ghost predicate Emits(ws: seq<World>, steps: seq<Step>, i: nat, suffix: string)
    requires IsRun(ws, steps) && i < |steps|
  {
    steps[i].Call? && steps[i].suffix == suffix && ws[i + 1].log != ws[i].log
  }

  /** A patch writes the UID of the Job shown; applied without an emission, its answer
      was lost, and applied with one it was delivered. */
  lemma PatchWrites(ws: seq<World>, steps: seq<Step>, i: nat, suffix: string)
    requires IsRun(ws, steps) && i < |steps|
    ensures Patches(ws, steps, i, suffix) ==>
              ShowsTerminal(steps[i]) && Marked(ws[i + 1], suffix) == steps[i].observed.value.uid
    ensures Emits(ws, steps, i, suffix) ==>
              ShowsTerminal(steps[i]) && Marked(ws[i + 1], suffix) == steps[i].observed.value.uid
    ensures Patches(ws, steps, i, suffix) && !Emits(ws, steps, i, suffix) ==> steps[i].fate.ResponseLost?
    ensures !Patches(ws, steps, i, suffix) ==> Marked(ws[i + 1], suffix) == Marked(ws[i], suffix)
  {
    InvInEveryRun(ws, steps, i);
    assert Enabled(ws[i], steps[i]) && ws[i + 1] == Next(ws[i], steps[i]);
    if steps[i].Call? {
      CallMarks(ws[i], steps[i]);
    }
  }

  ghost function PatchedAt(ws: seq<World>, steps: seq<Step>, suffix: string): (bs: seq<bool>)
    requires IsRun(ws, steps)
    ensures |bs| == |steps| && forall i :: 0 <= i < |bs| ==> bs[i] == Patches(ws, steps, i, suffix)
  {
    seq(|steps|, i requires 0 <= i < |steps| => Patches(ws, steps, i, suffix))
  }

  function Marks(ws: seq<World>, suffix: string): (ms: seq<string>)
    ensures |ms| == |ws| && forall i :: 0 <= i < |ms| ==> ms[i] == Marked(ws[i], suffix)
  {
    seq(|ws|, i requires 0 <= i < |ws| => Marked(ws[i], suffix))
  }

  function LastTrue(bs: seq<bool>, first: nat, n: nat): (i: Option<nat>)
    requires first <= n <= |bs|
    ensures i.Some? ==> first <= i.value < n && bs[i.value]
    ensures forall k :: (if i.Some? then i.value else first - 1) < k < n ==> !bs[k]
    decreases n
  {
    if first == n then None else if bs[n - 1] then Some(n - 1) else LastTrue(bs, first, n - 1)
  }

  lemma {:induction false} LastWriteStands(bs: seq<bool>, ms: seq<string>, first: nat, n: nat)
    requires first <= n <= |bs| && |ms| == |bs| + 1
    requires forall i :: 0 <= i < |bs| && !bs[i] ==> ms[i + 1] == ms[i]
    ensures ms[n] == match LastTrue(bs, first, n) case None => ms[first] case Some(i) => ms[i + 1]
    decreases n
  {
    if first < n {
      LastWriteStands(bs, ms, first, n - 1);
    }
  }

  /** The last applied patch of the suffix in the steps from first up to n. */
  ghost function LastPatch(ws: seq<World>, steps: seq<Step>, first: nat, n: nat, suffix: string): (i: Option<nat>)
    requires IsRun(ws, steps) && first <= n <= |steps|
    ensures i.Some? ==> first <= i.value < n && Patches(ws, steps, i.value, suffix)
    ensures forall k :: (if i.Some? then i.value else first - 1) < k < n ==> !Patches(ws, steps, k, suffix)
  {
    LastTrue(PatchedAt(ws, steps, suffix), first, n)
  }

  lemma UnpatchedStays(ws: seq<World>, steps: seq<Step>, i: nat, suffix: string)
    requires IsRun(ws, steps) && i < |steps| && !Patches(ws, steps, i, suffix)
    ensures Marked(ws[i + 1], suffix) == Marked(ws[i], suffix)
  {
    PatchWrites(ws, steps, i, suffix);
  }

  lemma MarkIsLastPatch(ws: seq<World>, steps: seq<Step>, first: nat, n: nat, suffix: string)
    requires IsRun(ws, steps) && first <= n <= |steps|
    ensures Marked(ws[n], suffix)
         == match LastPatch(ws, steps, first, n, suffix) case None => Marked(ws[first], suffix)
                                                         case Some(i) => Marked(ws[i + 1], suffix)
  {
    var bs, ms := PatchedAt(ws, steps, suffix), Marks(ws, suffix);
    forall i | 0 <= i < |bs| && !bs[i] ensures ms[i + 1] == ms[i] {
      UnpatchedStays(ws, steps, i, suffix);
    }
    LastWriteStands(bs, ms, first, n);
  }

  /** After an emission the mark is its UID or that of the last patch applied since. */
  lemma MarkSince(ws: seq<World>, steps: seq<Step>, k: nat, n: nat, suffix: string)
    requires IsRun(ws, steps) && k < n <= |steps| && Emits(ws, steps, k, suffix)
    ensures ShowsTerminal(steps[k])
    ensures var last := LastPatch(ws, steps, k + 1, n, suffix);
            if last.None? then Marked(ws[n], suffix) == steps[k].observed.value.uid
            else ShowsTerminal(steps[last.value]) && Marked(ws[n], suffix) == steps[last.value].observed.value.uid
  {
    var last := LastPatch(ws, steps, k + 1, n, suffix);
    PatchWrites(ws, steps, k, suffix);
    MarkIsLastPatch(ws, steps, k + 1, n, suffix);
    if last.Some? {
      PatchWrites(ws, steps, last.value, suffix);
    }
  }

  /** Over runs, exactly when an emission repeats: step k emitted for the suffix and
      nothing since has; a delivered call at n from the current version, shown the same
      UID, emits it again iff a patch applied in between, each with a lost answer, and
      the last of them wrote another UID. */
  lemma RepeatsIffLostPatchMoved(ws: seq<World>, steps: seq<Step>, k: nat, n: nat, suffix: string)
    requires IsRun(ws, steps) && k < n < |steps| && Emits(ws, steps, k, suffix)
    requires forall i :: k < i < n ==> !Emits(ws, steps, i, suffix)
    requires ShowsTerminal(steps[n]) && steps[n].suffix == suffix
    requires steps[n].snap == ws[n].server && steps[n].fate.Delivered?
    requires steps[k].observed.Some? && steps[n].observed.value.uid == steps[k].observed.value.uid != ""
    ensures var last := LastPatch(ws, steps, k + 1, n, suffix);
            Emits(ws, steps, n, suffix)
            <==> last.Some? && steps[last.value].observed.Some?
                 && steps[last.value].observed.value.uid != steps[k].observed.value.uid
    ensures forall i :: k < i < n && Patches(ws, steps, i, suffix) ==> steps[i].fate.ResponseLost?
  {
    MarkSince(ws, steps, k, n, suffix);
    SuffixesAreIndependent(ws, steps, n, n);
    forall i | k < i < n && Patches(ws, steps, i, suffix) ensures steps[i].fate.ResponseLost? {
      PatchWrites(ws, steps, i, suffix);
    }
  }

  /** And a lost answer does break it: Job a, Job b with a lost answer, Job a. */
  lemma LostAnswerRepeats(suffix: string)
    ensures var done := [JobCondition(JobComplete, true, 0)];
            var a, b := Some(Observed("a", done, 0)), Some(Observed("b", done, 0));
            var (s1, c1, e1) := RecordTerminal(Meta(0, map[]), Meta(0, map[]), suffix, a, Delivered);
            var (s2, c2, e2) := RecordTerminal(s1, s1, suffix, b, ResponseLost);
            var (s3, c3, e3) := RecordTerminal(s2, s2, suffix, a, Delivered);
            e1.Some? && e2.None? && e3.Some? && e1.value.uid == e3.value.uid == "a"
  {
    var done := [JobCondition(JobComplete, true, 0)];
    assert HasTrue(done, JobComplete) by { assert done[0].isTrue; }
  }

  // ---- at most once ---------------------------------------------------------------------------

  /** No suffix is shown an earlier UID again after another one. */
  ghost predicate NeverReturns(obs: seq<(string, string)>) {
    forall i, j, k :: 0 <= i < j < k < |obs| && obs[i].0 == obs[j].0 == obs[k].0 && obs[i].1 == obs[k].1 ==>
      obs[j].1 == obs[i].1
  }

  function LastShown(obs: seq<(string, string)>, suffix: string): (i: int)
    ensures -1 <= i < |obs|
    ensures i >= 0 ==> obs[i].0 == suffix
    ensures forall k :: i < k < |obs| ==> obs[k].0 != suffix
  {
    if obs == [] then -1
    else if obs[|obs| - 1].0 == suffix then |obs| - 1
    else LastShown(obs[..|obs| - 1], suffix)
  }

  /** The UID shown to the suffix last, if any. */
  ghost predicate ShownLast(w: World, suffix: string, uid: string) {
    var i := LastShown(w.obs, suffix);
    i >= 0 && w.obs[i].1 == uid
  }

  /** An emitted UID was shown before; while it is the one shown last, it is the
      mark. */
  ghost predicate EmissionOk(w: World, e: Emission) {
    && (e.suffix, e.uid) in w.obs
    && (e.uid != "" && ShownLast(w, e.suffix, e.uid) ==> Marked(w, e.suffix) == e.uid)
  }

  ghost predicate AtMostOnce(log: seq<Emission>) {
    forall i, j :: 0 <= i < j < |log| && log[i].suffix == log[j].suffix && log[i].uid != "" ==> log[i].uid != log[j].uid
  }

  ghost predicate OnceInv(w: World) {
    (forall i :: 0 <= i < |w.log| ==> EmissionOk(w, w.log[i])) && AtMostOnce(w.log)
  }

  lemma ReturningWasLast(obs: seq<(string, string)>, suffix: string, uid: string)
    requires NeverReturns(obs + [(suffix, uid)]) && (suffix, uid) in obs
    ensures LastShown(obs, suffix) >= 0 && obs[LastShown(obs, suffix)].1 == uid
  {
    var all := obs + [(suffix, uid)];
    var i :| 0 <= i < |obs| && obs[i] == (suffix, uid);
    var j := LastShown(obs, suffix);
    assert all[i] == obs[i] && all[j] == obs[j] && all[|obs|] == (suffix, uid);
  }

  /** Showing an emitted UID again emits nothing: it is still the mark. */
  lemma EmittedIsSkipped(w: World, s: Step, e: Emission)
    requires Inv(w) && Enabled(w, s) && s.Call? && ShowsTerminal(s) && NeverReturns(Next(w, s).obs)
    requires EmissionOk(w, e) && e.uid != "" && (e.suffix, e.uid) == (s.suffix, s.observed.value.uid)
    ensures Marked(w, s.suffix) == e.uid && Next(w, s).log == w.log
    ensures Marked(Next(w, s), s.suffix) == e.uid
  {
    ReturningWasLast(w.obs, e.suffix, e.uid);
    CallMarks(w, s);
  }

  lemma EmissionStaysOk(w: World, s: Step, e: Emission)
    requires Inv(w) && Enabled(w, s) && NeverReturns(Next(w, s).obs)
    requires EmissionOk(w, e)
    ensures EmissionOk(Next(w, s), e)
  {
    var w' := Next(w, s);
    if s.Call? && ShowsTerminal(s) {
      var shown := (s.suffix, s.observed.value.uid);
      assert w'.obs == w.obs + [shown] && w'.obs[..|w.obs|] == w.obs;
      assert LastShown(w'.obs, e.suffix) == if e.suffix == s.suffix then |w.obs| else LastShown(w.obs, e.suffix);
      if e.uid != "" && shown == (e.suffix, e.uid) {
        EmittedIsSkipped(w, s, e);
      } else if e.suffix != s.suffix {
        CallMarks(w, s);
      }
    }
  }

  lemma NewEmissionOk(w: World, s: Step)
    requires Inv(w) && Enabled(w, s) && Next(w, s).log != w.log
    ensures |Next(w, s).log| == |w.log| + 1 && Next(w, s).log[..|w.log|] == w.log
    ensures EmissionOk(Next(w, s), Next(w, s).log[|w.log|])
  {
    CallMarks(w, s);
    var w' := Next(w, s);
    var e := w'.log[|w.log|];
    assert w'.obs == w.obs + [(e.suffix, e.uid)];
  }

  lemma NewEmissionIsNew(w: World, s: Step, i: nat)
    requires Inv(w) && Enabled(w, s) && NeverReturns(Next(w, s).obs) && Next(w, s).log != w.log
    requires i < |w.log| && w.log[i].uid != "" && EmissionOk(w, w.log[i])
    requires |Next(w, s).log| == |w.log| + 1
    ensures w.log[i].suffix == Next(w, s).log[|w.log|].suffix ==> w.log[i].uid != Next(w, s).log[|w.log|].uid
  {
    CallMarks(w, s);
    var e := Next(w, s).log[|w.log|];
    if w.log[i].suffix == e.suffix && w.log[i].uid == e.uid {
      EmittedIsSkipped(w, s, w.log[i]);
    }
  }

  lemma StepKeepsOnce(w: World, s: Step)
    requires Inv(w) && OnceInv(w) && Enabled(w, s) && NeverReturns(Next(w, s).obs)
    ensures OnceInv(Next(w, s))
  {
    var w' := Next(w, s);
    forall i | 0 <= i < |w.log| ensures EmissionOk(w', w.log[i]) {
      EmissionStaysOk(w, s, w.log[i]);
    }
    if w'.log != w.log {
      NewEmissionOk(w, s);
      assert w'.log[..|w.log|] == w.log;
      forall i | 0 <= i < |w.log| && w.log[i].uid != ""
        ensures w.log[i].suffix == w'.log[|w.log|].suffix ==> w.log[i].uid != w'.log[|w.log|].uid
      {
        NewEmissionIsNew(w, s, i);
      }
    }
  }

  /** If the UIDs shown to a suffix never return to an earlier one, each is
      emitted at most once, lost answers included. */
  lemma {:induction false} EmittedAtMostOnce(ws: seq<World>, steps: seq<Step>, n: nat)
    requires IsRun(ws, steps) && n <= |steps|
    requires NeverReturns(ws[n].obs)
    ensures OnceInv(ws[n])
  {
    if n > 0 {
      var w, w' := ws[n - 1], ws[n];
      assert w' == Next(w, steps[n - 1]);
      assert w.obs <= w'.obs;
      assert NeverReturns(w.obs) by {
        forall i, j, k | 0 <= i < j < k < |w.obs| && w.obs[i].0 == w.obs[j].0 == w.obs[k].0 && w.obs[i].1 == w.obs[k].1
          ensures w.obs[j].1 == w.obs[i].1
        {
          assert w'.obs[i] == w.obs[i] && w'.obs[j] == w.obs[j] && w'.obs[k] == w.obs[k];
        }
      }
      EmittedAtMostOnce(ws, steps, n - 1);
      InvInEveryRun(ws, steps, n - 1);
      StepKeepsOnce(w, steps[n - 1]);
    }
  }

  /** Over runs, only calls of its own suffix move a mark. */
  lemma {:induction false} MarkStays(ws: seq<World>, steps: seq<Step>, i: nat, j: nat, suffix: string)
    requires IsRun(ws, steps) && i <= j <= |steps|
    requires forall k :: i <= k < j && steps[k].Call? ==> steps[k].suffix != suffix
    ensures Marked(ws[j], suffix) == Marked(ws[i], suffix)
    decreases j
  {
    if i < j {
      MarkStays(ws, steps, i, j - 1, suffix);
      InvInEveryRun(ws, steps, j - 1);
      assert Enabled(ws[j - 1], steps[j - 1]) && ws[j] == Next(ws[j - 1], steps[j - 1]);
      if steps[j - 1].Call? {
        CallMarks(ws[j - 1], steps[j - 1]);
      }
    }
  }

  /** Emission for one suffix never suppresses another: however many calls of other
      suffixes and other writes lie since step i, a delivered call from the current
      version emits exactly if its own mark at step i differs. */
  lemma SuffixesAreIndependent(ws: seq<World>, steps: seq<Step>, i: nat, j: nat)
    requires IsRun(ws, steps) && i <= j < |steps|
    requires ShowsTerminal(steps[j]) && steps[j].snap == ws[j].server && steps[j].fate.Delivered?
    requires forall k :: i <= k < j && steps[k].Call? ==> steps[k].suffix != steps[j].suffix
    ensures var uid := steps[j].observed.value.uid;
            ws[j + 1].log != ws[j].log <==> uid == "" || Marked(ws[i], steps[j].suffix) != uid
    ensures ws[j + 1].log != ws[j].log ==>
              ws[j + 1].log == ws[j].log + [ws[j + 1].log[|ws[j].log|]]
              && ws[j + 1].log[|ws[j].log|].suffix == steps[j].suffix
              && ws[j + 1].log[|ws[j].log|].uid == steps[j].observed.value.uid
  {
    MarkStays(ws, steps, i, j, steps[j].suffix);
    InvInEveryRun(ws, steps, j);
    assert Enabled(ws[j], steps[j]) && ws[j + 1] == Next(ws[j], steps[j]);
    CallMarks(ws[j], steps[j]);
  }
}
