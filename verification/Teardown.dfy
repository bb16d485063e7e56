/** The paged sweep of a CR's remote children and the release of the finalizer
    that waits for it (internal/common/multicluster/teardown.go). */
module Teardown {
  import opened Wrappers
  import opened Ownership

  datatype Child = Child(kind: string, namespace: string, name: string, obj: Object)

  /** A continue token names the rest of the snapshot its scan was started on. */
  type Token = Option<seq<Child>>

  datatype ListAnswer = NoMatch | Expired | ListFailed | Page(items: seq<Child>, next: Token)

  datatype DeleteAnswer = Deleted | AlreadyGone | DeleteFailed

  datatype TeardownError = Listing(kind: string) | Deleting(child: Child) | NoReader | FinalizerUpdate

  function Rest(t: Token): seq<Child> { if t.Some? then t.value else [] }

  ghost function OfKind(live: set<Child>, kind: string, namespace: string): set<Child> {
    set c | c in live && c.kind == kind && c.namespace == namespace
  }

  /** What a delete makes of an object in the store: one that a finalizer of its own
      holds is marked and stays listed, any other leaves. */
  datatype Store = Store(live: set<Child>, held: set<Child>, terminating: set<Child>, gone: set<Child>)

  function AfterDelete(s: Store, c: Child): Store {
    if c !in s.live then s
    else if c in s.held then s.(terminating := s.terminating + {c})
    else s.(live := s.live - {c}, gone := s.gone + {c})
  }

  /** An accepted delete is no removal: a held child is still on the cluster after it. */
  lemma HeldChildOutlivesDelete(s: Store, c: Child)
    requires c in s.live
    ensures c in AfterDelete(s, c).live <==> c in s.held
    ensures c in AfterDelete(s, c).live ==> c in AfterDelete(s, c).terminating
  {}

  /** The target cluster's API server. Its answers are its own choice within the
      contract of the API: paged lists of the snapshot at the first page, tokens
      that may expire, calls that may fail, and other clients that create, hold,
      release and delete between any two calls. */
  class TargetCluster {
    const served: set<string>
    var live: set<Child>
    // Live children with a finalizer of their own, and the deleted ones among them,
    // which leave when the last finalizer does.
    var held: set<Child>
    var terminating: set<Child>
    var gone: set<Child>
    // What appeared through other clients, what the sweep deleted, how often a
    // list expired per kind, how many calls failed.
    ghost var appeared: set<Child>
    ghost var swept: set<Child>
    ghost var expiries: multiset<string>
    ghost var failures: nat

    ghost predicate Valid() reads this {
      live !! gone && terminating <= held <= live && swept <= gone + terminating && appeared <= live + gone
    }

    /** Nothing that left comes back, what is terminating stays so until it leaves,
        nothing appears unrecorded, and what was there did not appear since. */
    twostate predicate Evolves() reads this {
      && Valid()
      && old(gone) <= gone && old(appeared) <= appeared && old(swept) <= swept
      && old(terminating) <= terminating + gone
      && old(live) <= live + gone && live <= old(live) + (appeared - old(appeared))
      && (appeared - old(appeared)) !! (old(live) + old(gone))
      && old(expiries) <= expiries && old(failures) <= failures
    }

    /** Other clients of the cluster. */
    method Interfere()
      requires Valid()
      modifies this
      ensures Evolves() && swept == old(swept) && expiries == old(expiries) && failures == old(failures)
    {
      assert live !! gone && terminating * live <= terminating <= held <= live;
      var next: set<Child>, holds: set<Child>, marked: set<Child> :|
        next !! gone && terminating * next <= marked <= holds <= next;
      gone := gone + (live - next);
      appeared := appeared + (next - live);
      live, held, terminating := next, holds, marked;
    }

    /** A list of one kind, in an order of the server's choosing. */
    method Ordered(kind: string, namespace: string) returns (q: seq<Child>)
      ensures forall c :: c in q <==> c in OfKind(live, kind, namespace)
    {
      q := [];
      var todo := set c | c in live && c.kind == kind && c.namespace == namespace;
      while todo != {}
        invariant forall c :: c in OfKind(live, kind, namespace) <==> c in q || c in todo
        decreases todo
      {
        var c :| c in todo;
        q := q + [c];
        todo := todo - {c};
      }
    }

    method List(kind: string, namespace: string, token: Token) returns (a: ListAnswer)
      requires Valid()
      modifies this
      ensures Evolves() && swept == old(swept)
      ensures a.NoMatch? ==> kind !in served
      ensures expiries == old(expiries) + (if a.Expired? then multiset{kind} else multiset{})
      ensures failures == old(failures) + (if a.ListFailed? then 1 else 0)
      ensures a.Page? && token.None? ==>
                forall c :: c in a.items + Rest(a.next) <==> c in OfKind(live, kind, namespace)
      ensures a.Page? && token.Some? ==> a.items + Rest(a.next) == token.value
      ensures a.Page? && token.Some? && a.next.Some? ==> |a.next.value| < |token.value|
    {
      Interfere();
      if * {
        failures := failures + 1;
        return ListFailed;
      }
      if kind !in served {
        return NoMatch;
      }
      if * {
        expiries := expiries + multiset{kind};
        return Expired;
      }
      var all := Rest(token);
      if token.None? {
        all := Ordered(kind, namespace);
      }
      var cut: nat :| cut <= |all| && (cut == 0 ==> all == []);
      assert all[..cut] + all[cut..] == all;
      return Page(all[..cut], if cut == |all| then None else Some(all[cut..]));
    }

    /** A delete is accepted, or fails with or without an effect. Accepted, it removes
        the child or, if something holds it, marks it. */
    method Delete(c: Child) returns (a: DeleteAnswer)
      requires Valid()
      modifies this
      ensures Evolves() && expiries == old(expiries)
      ensures swept <= old(swept) + {c}
      ensures a.DeleteFailed? || c !in live || c in terminating
      ensures failures == old(failures) + (if a.DeleteFailed? then 1 else 0)
    {
      Interfere();
      if * {
        failures := failures + 1;
        return DeleteFailed;
      }
      var lost := *;
      a := if c in live then Deleted else AlreadyGone;
      if c in live {
        swept := swept + {c};
      }
      var after := AfterDelete(Store(live, held, terminating, gone), c);
      live, terminating, gone := after.live, after.terminating, after.gone;
      if lost {
        failures := failures + 1;
        a := DeleteFailed;
      }
    }
  }

  /** Every owned child of the scanned set was deleted: it has left the cluster or is
      terminating. */
  ghost predicate Reclaimed(cluster: TargetCluster, owner: Owner, scanned: set<Child>)
    reads cluster
  {
    forall c :: c in scanned && Controls(owner, c.obj) ==> c in cluster.gone + cluster.terminating
  }

  ghost predicate OnlyOwned(children: set<Child>, owner: Owner, namespace: string, kinds: seq<string>) {
    forall c :: c in children ==> Controls(owner, c.obj) && c.namespace == namespace && c.kind in kinds
  }

  /** One kind: pages of one scan, and one scan more if a token expires. The scan
      that finished is returned as scanned; it holds every child of the kind that was
      live at the call and has not left since. */
  method SweepKind(cluster: TargetCluster, owner: Owner, namespace: string, kind: string)
    returns (err: Option<TeardownError>, ghost scanned: Option<set<Child>>)
    requires cluster.Valid()
    modifies cluster
    ensures cluster.Evolves()
    ensures OnlyOwned(cluster.swept - old(cluster.swept), owner, namespace, [kind])
    ensures err.Some? ==>
              cluster.failures > old(cluster.failures) || cluster.expiries[kind] >= old(cluster.expiries)[kind] + 2
    ensures err.None? && scanned.None? ==> kind !in cluster.served
    ensures err.None? && scanned.Some? ==>
              && (forall c :: c in OfKind(old(cluster.live), kind, namespace) ==> c in scanned.value || c in cluster.gone)
              && Reclaimed(cluster, owner, scanned.value)
              && (forall c :: c in OfKind(cluster.live, kind, namespace) ==>
                    c in scanned.value || c in cluster.appeared - old(cluster.appeared))
  {
    var token: Token := None;
    var rescanned := false;
    ghost var snapshot: set<Child> := {};
    // Pages are read until the last one; the measure is rescan unused, scan not
    // begun, pages left.
    while true
      invariant cluster.Evolves()
      invariant OnlyOwned(cluster.swept - old(cluster.swept), owner, namespace, [kind])
      invariant cluster.expiries[kind] >= old(cluster.expiries)[kind] + if rescanned then 1 else 0
      invariant token.Some? ==>
                  && (forall c :: c in token.value ==> c in snapshot)
                  && Reclaimed(cluster, owner, snapshot - (set c | c in token.value))
                  && (forall c :: c in snapshot ==> c.kind == kind && c.namespace == namespace)
                  && snapshot <= cluster.live + cluster.gone
                  && (forall c :: c in OfKind(cluster.live, kind, namespace) ==>
                        c in snapshot || c in cluster.appeared - old(cluster.appeared))
      decreases !rescanned, token.None?, |Rest(token)|
    {
      var page := cluster.List(kind, namespace, token);
      if page.NoMatch? {
        return None, None;
      }
      if page.Expired? && !rescanned {
        token, rescanned := None, true;
        continue;
      }
      if !page.Page? {
        return Some(Listing(kind)), None;
      }
      if token.None? {
        snapshot := OfKind(cluster.live, kind, namespace);
      }
      assert forall c :: c in page.items ==> c in snapshot;
      err := SweepPage(cluster, owner, namespace, kind, page.items);
      if err.Some? {
        return err, None;
      }
      assert Reclaimed(cluster, owner, snapshot - (set c | c in Rest(page.next)));
      token := page.next;
      if token.None? {
        assert snapshot - (set c | c in Rest(page.next)) == snapshot;
        return None, Some(snapshot);
      }
    }
  }

  method SweepPage(cluster: TargetCluster, owner: Owner, namespace: string, kind: string, items: seq<Child>)
    returns (err: Option<TeardownError>)
    requires cluster.Valid()
    requires forall c :: c in items ==> c.kind == kind && c.namespace == namespace && c in cluster.live + cluster.gone
    modifies cluster
    ensures cluster.Evolves() && cluster.expiries == old(cluster.expiries)
    ensures OnlyOwned(cluster.swept - old(cluster.swept), owner, namespace, [kind])
    ensures err.Some? ==> cluster.failures > old(cluster.failures)
    ensures err.None? ==> forall c :: c in items && Controls(owner, c.obj) ==> c in cluster.gone + cluster.terminating
  {
    err := None;
    for i := 0 to |items|
      invariant cluster.Evolves() && cluster.expiries == old(cluster.expiries)
      invariant OnlyOwned(cluster.swept - old(cluster.swept), owner, namespace, [kind])
      invariant forall k :: 0 <= k < i && Controls(owner, items[k].obj) ==> items[k] in cluster.gone + cluster.terminating
    {
      if !Controls(owner, items[i].obj) {
        continue;
      }
      var a := cluster.Delete(items[i]);
      if a.DeleteFailed? {
        return Some(Deleting(items[i]));
      }
    }
  }

  /** The children the sweep answers for: of a swept and served kind, in the
      namespace, recognized as the owner's. */
  predicate Answerable(c: Child, cluster: TargetCluster, owner: Owner, namespace: string, kinds: seq<string>) {
    c.kind in kinds && c.kind in cluster.served && c.namespace == namespace && Controls(owner, c.obj)
  }

  /** Every child the sweep answers for was deleted: those live before it are gone or
      terminating, gone exactly when nothing holds them, and one that is live without
      terminating appeared meanwhile. */
  twostate predicate Swept(cluster: TargetCluster, owner: Owner, namespace: string, kinds: seq<string>)
    reads cluster
  {
    && (forall c :: c in old(cluster.live) && Answerable(c, cluster, owner, namespace, kinds) ==>
          c in cluster.gone + cluster.terminating && (c in cluster.gone <==> c !in cluster.held))
    && (forall c :: c in cluster.live && Answerable(c, cluster, owner, namespace, kinds) ==>
          c in cluster.terminating || c in cluster.appeared - old(cluster.appeared))
  }

  /** From any later state on that stays exact: a deleted child is gone once nothing
      holds it any more, and not before. */
  twostate lemma GoneWhenReleased(cluster: TargetCluster, c: Child)
    requires cluster.Evolves() && c in old(cluster.gone) + old(cluster.terminating)
    ensures c in cluster.gone <==> c !in cluster.held
  {}

  /** What a sweep may fail for: a call that failed, or a list of one kind that expired
      twice. */
  twostate predicate Excused(cluster: TargetCluster, kinds: seq<string>)
    reads cluster
  {
    || cluster.failures > old(cluster.failures)
    || exists kind :: kind in kinds && cluster.expiries[kind] >= old(cluster.expiries)[kind] + 2
  }

  /** DeleteRemoteChildren. It fails only if a call failed or one kind expired twice.
      On success every child it answers for was deleted, and so was every owned child
      of each served kind's last scan. It deletes nothing else, and it does not wait
      for a child that something holds. */
  method DeleteRemoteChildren(cluster: TargetCluster, remote: bool, owner: Owner, namespace: string, kinds: seq<string>)
    returns (err: Option<TeardownError>, ghost scans: map<string, set<Child>>)
    requires cluster.Valid()
    modifies cluster
    ensures cluster.Evolves()
    ensures !remote ==> err.None? && cluster.live == old(cluster.live) && cluster.swept == old(cluster.swept)
    ensures OnlyOwned(cluster.swept - old(cluster.swept), owner, namespace, kinds)
    ensures err.Some? ==> Excused(cluster, kinds)
    ensures remote && err.None? ==>
              && Swept(cluster, owner, namespace, kinds)
              && (forall kind :: kind in kinds && kind in cluster.served ==>
                    kind in scans && Reclaimed(cluster, owner, scans[kind]))
  {
    scans := map[];
    if !remote {
      return None, map[];
    }
    for i := 0 to |kinds|
      invariant cluster.Evolves()
      invariant OnlyOwned(cluster.swept - old(cluster.swept), owner, namespace, kinds)
      invariant forall kind :: kind in kinds[..i] && kind in cluster.served ==>
                  kind in scans && Reclaimed(cluster, owner, scans[kind])
      invariant forall c :: c in cluster.live && Answerable(c, cluster, owner, namespace, kinds[..i]) ==>
                  c in cluster.terminating || c in cluster.appeared - old(cluster.appeared)
      invariant forall c :: c in old(cluster.live) && Answerable(c, cluster, owner, namespace, kinds[..i]) ==>
                  c in cluster.gone + cluster.terminating
    {
      ghost var scanned;
      err, scanned := SweepKind(cluster, owner, namespace, kinds[i]);
      if err.Some? {
        return;
      }
      if scanned.Some? {
        scans := scans[kinds[i] := scanned.value];
      }
      assert kinds[..i + 1] == kinds[..i] + [kinds[i]];
      forall c | c in cluster.live && Answerable(c, cluster, owner, namespace, kinds[..i + 1])
        ensures c in cluster.terminating || c in cluster.appeared - old(cluster.appeared)
      {
        if c.kind == kinds[i] {
          assert c in OfKind(cluster.live, kinds[i], namespace);
        }
      }
    }
    assert kinds[..|kinds|] == kinds;
    err := None;
  }

  // ---- the finalizer ------------------------------------------------------------------

  /** The children client a deletion pass resolved: none for a cluster given up
      on, the local one, or a target cluster's. */
  datatype Children = Abandoned | Local | Remote

  /** The CR on the management cluster. */
  class TerminatingCR {
    var finalizer: bool
    var warned: bool

    /** SweepRemoteChildren. The finalizer is released exactly when the update
        after it is accepted, and only behind an abandoned or local client or a
        sweep that succeeded, which it does unless a call fails; a child that something holds is then still live. */
    method SweepRemoteChildren(cluster: TargetCluster, children: Children, readerResolves: bool, updateAccepted: bool,
                               owner: Owner, namespace: string, kinds: seq<string>)
      returns (err: Option<TeardownError>, ghost swept: bool)
      requires cluster.Valid()
      modifies this, cluster
      ensures cluster.Evolves()
      ensures !old(finalizer) ==> err.None? && !finalizer && cluster.live == old(cluster.live)
      ensures old(finalizer) ==> (finalizer <==> err.Some?)
      ensures old(finalizer) && !finalizer ==> updateAccepted && (children.Remote? ==> readerResolves && swept)
      ensures old(finalizer) && updateAccepted && !children.Remote? ==> !finalizer
      ensures old(finalizer) && children.Remote? ==> (!finalizer <==> swept && updateAccepted)
      ensures swept ==> Swept(cluster, owner, namespace, kinds)
      ensures old(finalizer) && children.Remote? && !swept ==> !readerResolves || Excused(cluster, kinds)
      ensures warned == (old(warned) || (old(finalizer) && children.Abandoned?))
    {
      swept := false;
      if !finalizer {
        return None, false;
      }
      if children.Abandoned? {
        warned := true;
      } else {
        if children.Remote? && !readerResolves {
          return Some(NoReader), false;
        }
        ghost var scans;
        err, scans := DeleteRemoteChildren(cluster, children.Remote?, owner, namespace, kinds);
        if err.Some? {
          return;
        }
        swept := children.Remote?;
      }
      if !updateAccepted {
        return Some(FinalizerUpdate), swept;
      }
      finalizer := false;
      return None, swept;
    }
  }
}
