/** Engaged clusters follow their registration Secrets
    (internal/common/multicluster/provider.go). */
module Provider {
  import opened Wrappers
  import Text
  import Registration

  // ---- state -------------------------------------------------------------------------

  datatype Active = Active(id: nat, hash: string)

  /** A cluster that is started and waits for its cache. */
  datatype Pending = Pending(name: string, id: nat, hash: string)

  /** The provider's map and index list, with every cluster it ever started: which
      were cancelled, which indexes each carries, and which were registered
      successfully while it was pending. */
  datatype State = State(
    clusters: map<string, Active>, indexers: seq<string>, pending: Option<Pending>, nextId: nat,
    started: set<nat>, cancelled: set<nat>, carries: map<nat, set<string>>, window: map<nat, set<string>>,
    registered: set<string>)

  const Initially := State(map[], [], None, 0, {}, {}, map[], map[], {})

  function Engaged(s: State): set<nat> { set n | n in s.clusters :: s.clusters[n].id }

  function Starting(s: State): set<nat> { if s.pending.Some? then {s.pending.value.id} else {} }

  ghost predicate Inv(s: State) {
    && s.started - s.cancelled == Engaged(s) + Starting(s)
    && s.cancelled <= s.started
    && (forall id :: id in s.started ==> id < s.nextId && id in s.carries && id in s.window)
    && (forall m, n :: m in s.clusters && n in s.clusters && s.clusters[m].id == s.clusters[n].id ==> m == n)
    && (s.pending.Some? ==> s.pending.value.name !in s.clusters && s.pending.value.id !in Engaged(s))
    && (forall i :: i in s.registered ==> i in s.indexers)
    && (forall id :: id in Engaged(s) + Starting(s) ==> s.registered <= s.carries[id] + s.window[id])
  }

  // ---- steps ---------------------------------------------------------------------------

  function Remove(s: State, name: string): State {
    if name !in s.clusters then s
    else s.(clusters := s.clusters - {name}, cancelled := s.cancelled + {s.clusters[name].id})
  }

  /** What may go wrong in one engagement, in the order of the code. */
  datatype Faults = Faults(refused: bool, restConfig: bool, build: bool, index: bool, sync: bool, engage: bool)

  /** createAndEngageCluster up to the start of the cluster. */
  function Begin(s: State, name: string, hash: string, f: Faults): (State, bool) {
    if f.refused || f.restConfig || f.build || (f.index && s.indexers != []) then (s, false)
    else
      (s.(pending := Some(Pending(name, s.nextId, hash)), nextId := s.nextId + 1,
          started := s.started + {s.nextId},
          carries := s.carries[s.nextId := set i | i in s.indexers],
          window := s.window[s.nextId := {}]), true)
  }

  /** And from there on. */
  function Finish(s: State, f: Faults): (State, bool)
    requires s.pending.Some?
  {
    var p := s.pending.value;
    if f.sync then (s.(pending := None, cancelled := s.cancelled + {p.id}), false)
    else
      var s1 := s.(pending := None, clusters := s.clusters[p.name := Active(p.id, p.hash)]);
      if f.engage then (Remove(s1, p.name), false) else (s1, true)
  }

  function CreateAndEngage(s: State, name: string, hash: string, f: Faults): (State, bool) {
    var (s1, ok) := Begin(s, name, hash, f);
    if ok then Finish(s1, f) else (s1, false)
  }

  /** IndexField: the index is listed, then set on the engaged clusters in some
      order up to the first failure; reached are the ones that got it. */
  function IndexField(s: State, field: string, reached: set<nat>): State {
    var done := reached == Engaged(s);
    s.(indexers := s.indexers + [field],
       carries := map id | id in s.carries :: s.carries[id] + (if id in reached then {field} else {}),
       registered := s.registered + (if done then {field} else {}),
       window := map id | id in s.window ::
                   s.window[id] + (if done && id in Starting(s) then {field} else {}))
  }

  /** What getSecret answers. */
  datatype Secret = ReadError | Gone | Secret(deleting: bool, kubeconfig: Option<string>,
                                              placed: Option<string>, assignedNs: Option<string>)

  /** A value whose scope keys Reconcile accepts. */
  ghost predicate Honoured(secret: Secret) {
    && secret.Secret? && !secret.deleting
    && secret.kubeconfig.Some? && secret.kubeconfig.value != ""
    && (secret.assignedNs.Some? ==> secret.placed.Some?)
    && (secret.placed.Some? ==> Registration.Accepted(secret.placed.value))
    && (secret.assignedNs.Some? ==> Registration.Accepted(secret.assignedNs.value))
    && (secret.assignedNs.Some? ==> Disjoint(secret.placed.value, secret.assignedNs.value))
  }

  function Names(raw: string): seq<string> {
    var entries := Text.Split(raw, ',');
    seq(|entries|, i requires 0 <= i < |entries| => Registration.TrimSpace(entries[i]))
  }

  predicate Disjoint(placed: string, assignedNs: string) {
    forall i, j :: 0 <= i < |Names(placed)| && 0 <= j < |Names(assignedNs)| ==> Names(placed)[i] != Names(assignedNs)[j]
  }

  lemma BothDecidesDisjoint(both: seq<string>, placed: string, assignedNs: string)
    requires forall x :: x in both <==> x in Names(placed) && x in Names(assignedNs)
    ensures both == [] <==> Disjoint(placed, assignedNs)
  {
    assert both != [] ==> both[0] in both;
    assert forall i :: 0 <= i < |Names(placed)| ==> Names(placed)[i] in Names(placed);
    assert forall j :: 0 <= j < |Names(assignedNs)| ==> Names(assignedNs)[j] in Names(assignedNs);
  }

  /** The hash of a Secret's current content; the pre-image stands for its digest. */
  function HashOf(secret: Secret, withAssigned: bool): string
    requires secret.Secret? && secret.kubeconfig.Some?
  {
    Registration.Preimage(secret.kubeconfig.value, Registration.HashedKeys(
      Registration.Scope(secret.kubeconfig.value, secret.placed, secret.assignedNs), withAssigned))
  }

  ghost function Reconcile(s: State, name: string, secret: Secret, withAssigned: bool, f: Faults): (State, bool) {
    if secret.ReadError? then (s, false)
    else if !Honoured(secret) then (Remove(s, name), true)
    else
      var hash := HashOf(secret, withAssigned);
      if name in s.clusters && s.clusters[name].hash == hash then (s, true)
      else CreateAndEngage(Remove(s, name), name, hash, f)
  }

  // ---- the code, statement by statement ------------------------------------------------------

  class KubeconfigProvider {
    const withAssigned: bool
    var state: State

    method RemoveCluster(name: string)
      modifies this
      ensures state == Remove(old(state), name)
    {
      if name !in state.clusters {
        return;
      }
      var ac := state.clusters[name];
      state := state.(clusters := state.clusters - {name});
      state := state.(cancelled := state.cancelled + {ac.id});
    }

    /** applyIndexers: the indexes are replayed one by one. */
    method ApplyIndexers(fails: bool) returns (carried: set<string>, ok: bool)
      ensures ok <==> !(fails && state.indexers != [])
      ensures ok ==> carried == set i | i in state.indexers
    {
      carried := {};
      for k := 0 to |state.indexers|
        invariant carried == set i | i in state.indexers[..k]
        invariant k > 0 ==> !fails
      {
        if fails {
          return carried, false;
        }
        assert state.indexers[..k + 1] == state.indexers[..k] + [state.indexers[k]];
        carried := carried + {state.indexers[k]};
      }
      assert state.indexers[..|state.indexers|] == state.indexers;
      ok := true;
    }

    method CreateAndEngageCluster(name: string, hash: string, f: Faults) returns (ok: bool)
      modifies this
      ensures (state, ok) == CreateAndEngage(old(state), name, hash, f)
    {
      if f.refused || f.restConfig || f.build {
        return false;
      }
      var carried, indexed := ApplyIndexers(f.index);
      if !indexed {
        return false;
      }
      var id := state.nextId;
      state := state.(pending := Some(Pending(name, id, hash)), nextId := id + 1, started := state.started + {id},
                      carries := state.carries[id := carried], window := state.window[id := {}]);
      if f.sync {
        state := state.(pending := None, cancelled := state.cancelled + {id});
        return false;
      }
      state := state.(pending := None, clusters := state.clusters[name := Active(id, hash)]);
      if f.engage {
        RemoveCluster(name);
        return false;
      }
      return true;
    }

    /** The checks a registration passes before it is hashed. */
    static method Check(secret: Secret) returns (ok: bool)
      ensures ok <==> Honoured(secret)
    {
      if !secret.Secret? || secret.deleting || secret.kubeconfig.None? || secret.kubeconfig.value == "" {
        return false;
      }
      if secret.assignedNs.Some? && secret.placed.None? {
        return false;
      }
      if secret.placed.None? {
        return true;
      }
      var namespaces := Registration.ParseNamespaces(secret.placed.value);
      if namespaces.None? {
        return false;
      }
      if secret.assignedNs.None? {
        return true;
      }
      var assignedNs := Registration.ParseNamespaces(secret.assignedNs.value);
      if assignedNs.None? {
        return false;
      }
      var both := Registration.InBoth(namespaces.value, assignedNs.value);
      assert namespaces.value == Names(secret.placed.value) && assignedNs.value == Names(secret.assignedNs.value);
      ok := both == [];
      BothDecidesDisjoint(both, secret.placed.value, secret.assignedNs.value);
    }

    method ReconcileSecret(name: string, secret: Secret, f: Faults) returns (ok: bool)
      modifies this
      ensures (state, ok) == Reconcile(old(state), name, secret, withAssigned, f)
    {
      if secret.ReadError? {
        return false;
      }
      var honoured := Check(secret);
      if !honoured {
        RemoveCluster(name);
        return true;
      }
      var hash := HashOf(secret, withAssigned);
      if name in state.clusters {
        if state.clusters[name].hash == hash {
          return true;
        }
        RemoveCluster(name);
      }
      ok := CreateAndEngageCluster(name, hash, f);
    }

    /** IndexField: fails names the clusters whose own IndexField fails. */
    method IndexEngaged(field: string, fails: set<nat>) returns (ok: bool, ghost reached: set<nat>)
      requires Engaged(state) <= state.carries.Keys
      modifies this
      ensures reached <= Engaged(old(state)) && state == IndexField(old(state), field, reached)
      ensures ok <==> reached == Engaged(old(state))
    {
      ghost var before := state;
      var carries := state.carries;
      reached := {};
      var todo := Engaged(state);
      ok := true;
      while todo != {} && ok
        invariant state == before && todo <= Engaged(state) && reached <= Engaged(state) && reached !! todo
        invariant ok ==> reached + todo == Engaged(state)
        invariant !ok ==> reached != Engaged(state)
        invariant carries.Keys == before.carries.Keys
        invariant forall id :: id in carries ==> carries[id] == before.carries[id] + (if id in reached then {field} else {})
        decreases todo, ok
      {
        var id :| id in todo;
        if id in fails {
          ok := false;
        } else {
          carries := carries[id := carries[id] + {field}];
          reached := reached + {id};
          todo := todo - {id};
        }
      }
      var starting := Starting(state);
      state := state.(indexers := state.indexers + [field], carries := carries,
                      registered := state.registered + (if ok then {field} else {}),
                      window := map id | id in state.window ::
                        state.window[id] + (if ok && id in starting then {field} else {}));
    }
  }

  // ---- what every step keeps ---------------------------------------------------------------------

  lemma RemoveKeepsInv(s: State, name: string)
    requires Inv(s)
    ensures Inv(Remove(s, name))
  {
    if name in s.clusters {
      var r := Remove(s, name);
      forall id ensures id in Engaged(r) <==> id in Engaged(s) && id != s.clusters[name].id {
        if id in Engaged(s) && id != s.clusters[name].id {
          var n :| n in s.clusters && s.clusters[n].id == id;
          assert n in r.clusters && r.clusters[n].id == id;
        }
      }
    }
  }

  lemma BeginKeepsInv(s: State, name: string, hash: string, f: Faults)
    requires Inv(s) && s.pending.None? && name !in s.clusters
    ensures Inv(Begin(s, name, hash, f).0)
  {
    var r := Begin(s, name, hash, f).0;
    assert Engaged(r) == Engaged(s);
    assert s.nextId !in s.started;
  }

  lemma FinishKeepsInv(s: State, f: Faults)
    requires Inv(s) && s.pending.Some?
    ensures Inv(Finish(s, f).0)
  {
    var p := s.pending.value;
    var engaged := s.(pending := None, clusters := s.clusters[p.name := Active(p.id, p.hash)]);
    forall id ensures id in Engaged(engaged) <==> id in Engaged(s) || id == p.id {
      if id in Engaged(s) {
        var n :| n in s.clusters && s.clusters[n].id == id;
        assert n in engaged.clusters && engaged.clusters[n].id == id;
      }
      assert p.name in engaged.clusters;
    }
    if !f.sync {
      assert Inv(engaged);
      RemoveKeepsInv(engaged, p.name);
    }
  }

  lemma IndexFieldKeepsInv(s: State, field: string, reached: set<nat>)
    requires Inv(s) && reached <= Engaged(s)
    ensures Inv(IndexField(s, field, reached))
  {
    var r := IndexField(s, field, reached);
    assert Engaged(r) == Engaged(s) && Starting(r) == Starting(s);
  }

  // ---- runs -----------------------------------------------------------------------------------------

  /** Reconcile calls do not overlap, but an IndexField call may fall anywhere,
      also between the start of a cluster and its entry in the map. */
  datatype Step =
    | Disengage(name: string)
    | Start(name: string, hash: string, faults: Faults)
    | Settle(faults: Faults)
    | Index(field: string, reached: set<nat>)

  predicate Enabled(s: State, step: Step) {
    match step
    case Disengage(_) => s.pending.None?
    case Start(name, _, _) => s.pending.None? && name !in s.clusters
    case Settle(_) => s.pending.Some?
    case Index(_, reached) => reached <= Engaged(s)
  }

  function Next(s: State, step: Step): State
    requires Enabled(s, step)
  {
    match step
    case Disengage(name) => Remove(s, name)
    case Start(name, hash, f) => Begin(s, name, hash, f).0
    case Settle(f) => Finish(s, f).0
    case Index(field, reached) => IndexField(s, field, reached)
  }

  ghost predicate IsRun(ss: seq<State>, steps: seq<Step>) {
    && |ss| == |steps| + 1 && ss[0] == Initially
    && forall i {:trigger steps[i]} :: 0 <= i < |steps| ==> Enabled(ss[i], steps[i]) && ss[i + 1] == Next(ss[i], steps[i])
  }

  lemma {:induction false} InvInEveryRun(ss: seq<State>, steps: seq<Step>, n: nat)
    requires IsRun(ss, steps) && n <= |steps|
    ensures Inv(ss[n])
  {
    if n > 0 {
      InvInEveryRun(ss, steps, n - 1);
      var s, step := ss[n - 1], steps[n - 1];
      assert ss[n] == Next(s, step);
      match step
      case Disengage(name) => RemoveKeepsInv(s, name);
      case Start(name, hash, f) => BeginKeepsInv(s, name, hash, f);
      case Settle(f) => FinishKeepsInv(s, f);
      case Index(field, reached) => IndexFieldKeepsInv(s, field, reached);
    }
  }

  /** Whatever failed on the way: outside an engagement the started and
      uncancelled clusters are exactly the map's entries, one each; and an engaged
      cluster carries every successfully registered index but those registered
      while that cluster was being engaged. */
  lemma StartedIsEngaged(ss: seq<State>, steps: seq<Step>, n: nat, name: string)
    requires IsRun(ss, steps) && n <= |steps| && ss[n].pending.None?
    ensures ss[n].started - ss[n].cancelled == Engaged(ss[n])
    ensures name in ss[n].clusters ==>
              var id := ss[n].clusters[name].id;
              && id in ss[n].carries && id in ss[n].window
              && ss[n].registered <= ss[n].carries[id] + ss[n].window[id]
  {
    InvInEveryRun(ss, steps, n);
    if name in ss[n].clusters {
      assert ss[n].clusters[name].id in Engaged(ss[n]);
    }
  }

  lemma {:induction false} NoWindowNoMiss(ss: seq<State>, steps: seq<Step>, n: nat)
    requires IsRun(ss, steps) && n <= |steps|
    requires forall i {:trigger steps[i]} :: 0 <= i < |steps| && steps[i].Index? ==> ss[i].pending.None?
    ensures forall id :: id in ss[n].window ==> ss[n].window[id] == {}
  {
    if n > 0 {
      NoWindowNoMiss(ss, steps, n - 1);
      assert ss[n] == Next(ss[n - 1], steps[n - 1]);
    }
  }

  /** With every index registered outside an engagement, no cluster misses one. */
  lemma EveryIndexCarried(ss: seq<State>, steps: seq<Step>, n: nat, name: string)
    requires IsRun(ss, steps) && n <= |steps| && name in ss[n].clusters
    requires forall i {:trigger steps[i]} :: 0 <= i < |steps| && steps[i].Index? ==> ss[i].pending.None?
    ensures ss[n].clusters[name].id in ss[n].carries
    ensures ss[n].registered <= ss[n].carries[ss[n].clusters[name].id]
  {
    InvInEveryRun(ss, steps, n);
    NoWindowNoMiss(ss, steps, n);
    var id := ss[n].clusters[name].id;
    assert id in Engaged(ss[n]);
    assert ss[n].window[id] == {};
  }

  /** Whatever state an engagement is in: an index registered between the replay of
      the indexes and the entry in the map reaches the new cluster exactly if the
      replay had it already. */
  lemma IndexInWindow(s: State, field: string, reached: set<nat>, f: Faults)
    requires Inv(s) && s.pending.Some? && reached <= Engaged(s) && !f.sync && !f.engage
    ensures var p, r := s.pending.value, Finish(IndexField(s, field, reached), f).0;
            p.name in r.clusters && r.clusters[p.name].id == p.id && p.id in r.carries
            && (field in r.carries[p.id] <==> field in s.carries[p.id])
  {
    assert s.pending.value.id !in Engaged(s);
  }

  /** Step b started a cluster, under this id. */
  ghost predicate Starts(ss: seq<State>, steps: seq<Step>, b: nat, id: nat)
    requires IsRun(ss, steps) && b < |steps|
  {
    steps[b].Start? && ss[b].pending.None? && ss[b + 1].pending.Some? && ss[b + 1].pending.value.id == id
  }

  /** A registration of field after step b that reached the cluster. */
  ghost predicate ReachedSince(steps: seq<Step>, b: nat, n: nat, field: string, id: nat)
    requires n <= |steps|
  {
    exists i :: b < i < n && steps[i].Index? && steps[i].field == field && id in steps[i].reached
  }

  lemma ReachedOneMore(steps: seq<Step>, b: nat, n: nat, field: string, id: nat)
    requires b < n < |steps|
    ensures ReachedSince(steps, b, n + 1, field, id)
            <==> ReachedSince(steps, b, n, field, id)
                 || (steps[n].Index? && steps[n].field == field && id in steps[n].reached)
  {}

  /** Over runs: a cluster carries exactly the indexes listed when it was started and
      those whose later registration reached it. */
  lemma {:induction false} CarriesExactly(ss: seq<State>, steps: seq<Step>, b: nat, n: nat, id: nat, field: string)
    requires IsRun(ss, steps) && b < n <= |steps| && Starts(ss, steps, b, id)
    ensures id in ss[n].carries && id < ss[n].nextId
    ensures field in ss[n].carries[id] <==> field in ss[b].indexers || ReachedSince(steps, b, n, field, id)
    decreases n
  {
    var s, step := ss[n - 1], steps[n - 1];
    assert Enabled(s, step) && ss[n] == Next(s, step);
    if b < n - 1 {
      CarriesExactly(ss, steps, b, n - 1, id, field);
      ReachedOneMore(steps, b, n - 1, field, id);
    }
  }

  /** So when every registration of an index succeeds on the clusters engaged then, an
      engaged cluster misses it exactly if it was not listed when the cluster was
      started and no later registration found the cluster engaged: every one made
      since fell into its own engagement. */
  lemma MissedExactly(ss: seq<State>, steps: seq<Step>, b: nat, n: nat, name: string, field: string)
    requires IsRun(ss, steps) && b < n <= |steps| && name in ss[n].clusters
    requires Starts(ss, steps, b, ss[n].clusters[name].id)
    requires forall i {:trigger steps[i]} :: 0 <= i < |steps| && steps[i].Index? && steps[i].field == field ==>
               steps[i].reached == Engaged(ss[i])
    ensures var id := ss[n].clusters[name].id;
            id in ss[n].carries
            && (field !in ss[n].carries[id]
                <==> field !in ss[b].indexers
                     && forall i {:trigger steps[i]} :: b < i < n && steps[i].Index? && steps[i].field == field ==> id !in Engaged(ss[i]))
  {
    CarriesExactly(ss, steps, b, n, ss[n].clusters[name].id, field);
  }

  /** One such run: both calls succeed and the cluster never gets the index. */
  lemma IndexInWindowIsMissed(name: string, hash: string, field: string)
    ensures var ok := Faults(false, false, false, false, false, false);
            var s1 := Next(Initially, Start(name, hash, ok));
            var s2 := Next(s1, Index(field, {}));
            var s3 := Next(s2, Settle(ok));
            && s3.pending.None? && name in s3.clusters && field in s3.registered
            && field !in s3.carries[s3.clusters[name].id]
  {
    var ok := Faults(false, false, false, false, false, false);
    var s1 := Next(Initially, Start(name, hash, ok));
    assert Engaged(s1) == {};
  }

  // ---- one Reconcile ------------------------------------------------------------------------------------

  /** Nothing but the entry of name differs. */
  predicate OthersKept(s: State, r: State, name: string) {
    forall m :: m in s.clusters.Keys + r.clusters.Keys && m != name ==>
      m in r.clusters && m in s.clusters && r.clusters[m] == s.clusters[m]
  }

  lemma EngageOutcome(s: State, name: string, hash: string, f: Faults)
    requires Inv(s) && s.pending.None? && name !in s.clusters
    ensures var (r, ok) := CreateAndEngage(s, name, hash, f);
            && Inv(r) && r.pending.None? && OthersKept(s, r, name)
            && (if ok then name in r.clusters && r.clusters[name] == Active(s.nextId, hash) else name !in r.clusters)
  {
    BeginKeepsInv(s, name, hash, f);
    var (s1, ok) := Begin(s, name, hash, f);
    if ok {
      FinishKeepsInv(s1, f);
    }
  }

  /** A call that returns success leaves the name engaged under the hash of its
      Secret's current content, or absent if the Secret is gone, deleting or
      refused; a failed one leaves the name absent, or everything as it was when
      the Secret could not be read; and no call touches another name. */
  lemma {:induction false} ReconcileOutcome(s: State, name: string, secret: Secret, withAssigned: bool, f: Faults)
    requires Inv(s) && s.pending.None?
    ensures var (r, ok) := Reconcile(s, name, secret, withAssigned, f);
            && Inv(r) && r.pending.None? && OthersKept(s, r, name)
            && (ok ==> if Honoured(secret)
                       then name in r.clusters && r.clusters[name].hash == HashOf(secret, withAssigned)
                       else name !in r.clusters)
            && (!ok ==> name !in r.clusters || (secret.ReadError? && r == s))
  {
    RemoveKeepsInv(s, name);
    if Honoured(secret) {
      EngageOutcome(Remove(s, name), name, HashOf(secret, withAssigned), f);
    }
  }

  /** A registration that asks for nothing: gone, deleting, without a kubeconfig, with
      a scope key that is not accepted, with an assigned scope and no placed one, or with a
      namespace under both. */
  ghost predicate Void(secret: Secret) {
    || secret.Gone?
    || (secret.Secret?
        && (|| secret.deleting || secret.kubeconfig.None? || secret.kubeconfig.value == ""
            || (secret.placed.Some? && !Registration.Accepted(secret.placed.value))
            || (secret.assignedNs.Some? && !Registration.Accepted(secret.assignedNs.value))
            || (secret.assignedNs.Some? && secret.placed.None?)
            || (secret.assignedNs.Some? && secret.placed.Some?
                && exists ns :: ns in Names(secret.placed.value) && ns in Names(secret.assignedNs.value))))
  }

  lemma VoidOrHonoured(secret: Secret)
    requires !secret.ReadError?
    ensures Void(secret) <==> !Honoured(secret)
  {
    if secret.Secret? && secret.placed.Some? && secret.assignedNs.Some? {
      var placed, other := Names(secret.placed.value), Names(secret.assignedNs.value);
      if ns :| ns in placed && ns in other {
        var i :| 0 <= i < |placed| && placed[i] == ns;
        var j :| 0 <= j < |other| && other[j] == ns;
      } else {
        forall i, j | 0 <= i < |placed| && 0 <= j < |other| ensures placed[i] != other[j] {
          assert placed[i] in placed && other[j] in other;
        }
      }
    }
  }

  /** What an engagement can fail for. */
  predicate Obstructed(s: State, f: Faults) {
    f.refused || f.restConfig || f.build || f.sync || f.engage || (f.index && s.indexers != [])
  }

  /** A void registration disengages its cluster and no call can prevent it; an
      unchanged one leaves every cluster running as it is; and any other is engaged,
      as a new cluster, exactly when nothing obstructs it. */
  lemma ReconcileSucceedsIff(s: State, name: string, secret: Secret, withAssigned: bool, f: Faults)
    requires Inv(s) && s.pending.None? && !secret.ReadError?
    ensures var (r, ok) := Reconcile(s, name, secret, withAssigned, f);
            if Void(secret) then ok && name !in r.clusters && (name !in s.clusters ==> r == s)
            else if name in s.clusters && s.clusters[name].hash == HashOf(secret, withAssigned) then ok && r == s
            else
              && (ok <==> !Obstructed(s, f))
              && (ok ==> name in r.clusters && r.clusters[name].id == s.nextId
                         && r.carries[s.nextId] == set i | i in s.indexers)
              && (name in s.clusters ==> s.clusters[name].id in r.cancelled)
  {
    VoidOrHonoured(secret);
    RemoveKeepsInv(s, name);
    if name in s.clusters {
      assert s.clusters[name].id in Engaged(s);
    }
    if Honoured(secret) {
      EngageOutcome(Remove(s, name), name, HashOf(secret, withAssigned), f);
    }
  }

  /** Changing anything the hash covers re-engages: with distinct checked content
      the hash differs, so the cluster is built again or gone. */
  lemma ChangedContentReengages(s: State, name: string, before: Secret, after: Secret, withAssigned: bool, f: Faults)
    requires Inv(s) && s.pending.None? && Honoured(before) && Honoured(after)
    requires Registration.NulFree(before.kubeconfig.value) && Registration.NulFree(after.kubeconfig.value)
    requires name in s.clusters && s.clusters[name].hash == HashOf(before, withAssigned)
    requires before.kubeconfig != after.kubeconfig || before.placed != after.placed
          || (withAssigned && before.assignedNs != after.assignedNs)
    ensures var r := Reconcile(s, name, after, withAssigned, f).0;
            s.clusters[name].id in r.cancelled && (name in r.clusters ==> r.clusters[name].id != s.clusters[name].id)
  {
    var a := Registration.Scope(before.kubeconfig.value, before.placed, before.assignedNs);
    var b := Registration.Scope(after.kubeconfig.value, after.placed, after.assignedNs);
    if HashOf(before, withAssigned) == HashOf(after, withAssigned) {
      Registration.PreimageInjective(a, b, withAssigned);
    }
    assert s.clusters[name].id in Engaged(s);
  }
}
