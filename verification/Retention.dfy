/** Which GHCR package versions a sweep deletes (hack/ghcr-prune-stale-versions.py).
    Tag patterns, manifests and timestamps are given as functions. */
module Retention {
  import opened Wrappers
  import opened Text

  datatype Version = Version(digest: string, tags: seq<string>, created: string)

  /** keeper: some keep pattern matches the tag. subject: the digest a referrer
      tag names. children: the digests a manifest points at. */
  datatype Registry = Registry(keeper: string -> bool, subject: string -> Option<string>, children: string -> seq<string>)

  /** only: matched by some --only-tag-pattern, if any was given. age: hours since
      a timestamp. runOf: the workflow run an e2e tag names. */
  datatype Sweep = Sweep(only: Option<string -> bool>, age: string -> real, minAge: real,
                         runOf: string -> Option<string>, maxDeletions: nat)

  // ---- the keep set ------------------------------------------------------------------

  predicate HasKeeperTag(reg: Registry, v: Version) {
    exists i :: 0 <= i < |v.tags| && reg.keeper(v.tags[i])
  }

  /** The subjects of a version whose tags are all referrer tags. */
  function Subjects(reg: Registry, tags: seq<string>): set<string> {
    if forall i :: 0 <= i < |tags| ==> reg.subject(tags[i]).Some?
    then set i | 0 <= i < |tags| :: reg.subject(tags[i]).value
    else {}
  }

  method ReferrerSubjects(reg: Registry, tags: seq<string>) returns (subjects: set<string>)
    ensures subjects == Subjects(reg, tags)
  {
    subjects := {};
    for i := 0 to |tags|
      invariant forall k :: 0 <= k < i ==> reg.subject(tags[k]).Some?
      invariant subjects == set k | 0 <= k < i :: reg.subject(tags[k]).value
    {
      if reg.subject(tags[i]).None? {
        return {};
      }
      subjects := subjects + {reg.subject(tags[i]).value};
    }
  }

  /** Digests kept once every keeper tag, every child of a kept listed manifest
      and every referrer of something kept is honoured. */
  ghost predicate Closed(reg: Registry, versions: seq<Version>, s: set<string>) {
    && (forall v :: v in versions && HasKeeperTag(reg, v) ==> v.digest in s)
    && (forall v :: v in versions && v.digest in s ==> forall c :: c in reg.children(v.digest) ==> c in s)
    && (forall v :: v in versions && Subjects(reg, v.tags) * s != {} ==> v.digest in s)
  }

  ghost predicate Least(reg: Registry, versions: seq<Version>, keep: set<string>) {
    && Closed(reg, versions, keep)
    && forall s :: Closed(reg, versions, s) ==> keep <= s
  }

  /** Everything the closure can reach. */
  ghost function Universe(reg: Registry, versions: seq<Version>): set<string> {
    (set v | v in versions :: v.digest) + (set v, c | v in versions && c in reg.children(v.digest) :: c)
  }

  /** One round over a snapshot of the keep set, in any order, then over the
      referrers. */
  method ExpandOnce(reg: Registry, versions: seq<Version>, byDigest: set<string>,
                    referrers: seq<(set<string>, string)>, keep0: set<string>, expanded0: set<string>)
    returns (keep: set<string>, expanded: set<string>, changed: bool)
    requires byDigest == set v | v in versions :: v.digest
    requires forall r :: r in referrers ==>
               exists v :: v in versions && r == (Subjects(reg, v.tags), v.digest)
    requires keep0 <= Universe(reg, versions)
    requires forall s :: Closed(reg, versions, s) ==> keep0 <= s
    requires forall v :: v in versions && v.digest in expanded0 ==> forall c :: c in reg.children(v.digest) ==> c in keep0
    ensures keep0 <= keep <= Universe(reg, versions) && keep0 <= expanded
    ensures changed <==> keep != keep0
    ensures forall s :: Closed(reg, versions, s) ==> keep <= s
    ensures forall v :: v in versions && v.digest in expanded ==> forall c :: c in reg.children(v.digest) ==> c in keep
    ensures !changed ==> forall r :: r in referrers && r.0 * keep != {} ==> r.1 in keep
  {
    keep, expanded, changed := keep0, expanded0, false;
    var todo := keep0;
    while todo != {}
      invariant keep0 <= keep <= Universe(reg, versions) && todo <= keep0 <= expanded + todo
      invariant changed <==> keep != keep0
      invariant forall s :: Closed(reg, versions, s) ==> keep <= s
      invariant forall v :: v in versions && v.digest in expanded ==> forall c :: c in reg.children(v.digest) ==> c in keep
      decreases todo
    {
      var digest :| digest in todo;
      todo := todo - {digest};
      if digest in expanded || digest !in byDigest {
        expanded := expanded + {digest};
        continue;
      }
      ghost var v0 :| v0 in versions && v0.digest == digest;
      var children := reg.children(digest);
      for i := 0 to |children|
        invariant keep0 <= keep <= Universe(reg, versions)
        invariant changed <==> keep != keep0
        invariant forall s :: Closed(reg, versions, s) ==> keep <= s
        invariant forall v :: v in versions && v.digest in expanded ==> forall c :: c in reg.children(v.digest) ==> c in keep
        invariant forall k :: 0 <= k < i ==> children[k] in keep
      {
        if children[i] !in keep {
          assert children[i] in reg.children(v0.digest);
          keep := keep + {children[i]};
          changed := true;
        }
      }
      expanded := expanded + {digest};
    }
    ghost var before := changed;
    for i := 0 to |referrers|
      invariant keep0 <= keep <= Universe(reg, versions) && keep0 <= expanded
      invariant changed <==> keep != keep0
      invariant before ==> changed
      invariant forall s :: Closed(reg, versions, s) ==> keep <= s
      invariant forall v :: v in versions && v.digest in expanded ==> forall c :: c in reg.children(v.digest) ==> c in keep
      invariant !changed ==> forall k :: 0 <= k < i && referrers[k].0 * keep != {} ==> referrers[k].1 in keep
    {
      var (subjects, digest) := referrers[i];
      if digest !in keep && subjects * keep != {} {
        assert referrers[i] in referrers;
        ghost var v1 :| v1 in versions && referrers[i] == (Subjects(reg, v1.tags), v1.digest);
        forall s | Closed(reg, versions, s) ensures digest in s {
          var x :| x in subjects * keep;
          assert x in Subjects(reg, v1.tags) * s;
        }
        keep := keep + {digest};
        changed := true;
      }
    }
  }

  /** The worklist loop of build_plan terminates with the least closed set, so
      the listing order and the iteration order of the sets never show. */
  method KeepSet(reg: Registry, versions: seq<Version>) returns (keep: set<string>)
    ensures Least(reg, versions, keep)
  {
    keep := {};
    var referrers: seq<(set<string>, string)> := [];
    for i := 0 to |versions|
      invariant forall d :: d in keep <==> exists k :: 0 <= k < i && HasKeeperTag(reg, versions[k]) && d == versions[k].digest
      invariant forall r :: r in referrers ==> exists v :: v in versions && r == (Subjects(reg, v.tags), v.digest)
      invariant forall k :: 0 <= k < i && !HasKeeperTag(reg, versions[k]) && Subjects(reg, versions[k].tags) != {} ==>
                  (Subjects(reg, versions[k].tags), versions[k].digest) in referrers
    {
      if HasKeeperTag(reg, versions[i]) {
        keep := keep + {versions[i].digest};
      } else if versions[i].tags != [] {
        var subjects := ReferrerSubjects(reg, versions[i].tags);
        if subjects != {} {
          referrers := referrers + [(subjects, versions[i].digest)];
        }
      }
    }
    ghost var keepers := keep;
    var byDigest := set v | v in versions :: v.digest;
    var expanded: set<string> := {};
    var changed := true;
    while changed
      invariant keepers <= keep <= Universe(reg, versions)
      invariant forall s :: Closed(reg, versions, s) ==> keep <= s
      invariant forall v :: v in versions && v.digest in expanded ==> forall c :: c in reg.children(v.digest) ==> c in keep
      invariant !changed ==> keep <= expanded && forall r :: r in referrers && r.0 * keep != {} ==> r.1 in keep
      decreases Universe(reg, versions) - keep, changed
    {
      keep, expanded, changed := ExpandOnce(reg, versions, byDigest, referrers, keep, expanded);
    }
    forall v | v in versions && HasKeeperTag(reg, v) ensures v.digest in keep {
      var k :| 0 <= k < |versions| && versions[k] == v;
    }
    forall v | v in versions && Subjects(reg, v.tags) * keep != {} ensures v.digest in keep {
      var k :| 0 <= k < |versions| && versions[k] == v;
      if !HasKeeperTag(reg, v) {
        assert (Subjects(reg, v.tags), v.digest) in referrers;
      }
    }
  }

  /** Only membership matters: two listings of the same versions have one keep set. */
  lemma KeepSetIgnoresOrder(reg: Registry, a: seq<Version>, b: seq<Version>, ka: set<string>, kb: set<string>)
    requires forall v :: v in a <==> v in b
    requires Least(reg, a, ka) && Least(reg, b, kb)
    ensures ka == kb
  {
    ClosedByMembers(reg, a, b, ka);
    ClosedByMembers(reg, b, a, kb);
  }

  lemma ClosedByMembers(reg: Registry, a: seq<Version>, b: seq<Version>, s: set<string>)
    requires forall v :: v in b ==> v in a
    requires Closed(reg, a, s)
    ensures Closed(reg, b, s)
  {
  }

  // ---- what the keep set is for --------------------------------------------------------

  /** A kept a keeps b: b is a child of the listed manifest a, or a listed version with
      nothing but referrer tags, one of them for a. */
  ghost predicate Keeps(reg: Registry, versions: seq<Version>, a: string, b: string) {
    || (b in reg.children(a) && exists v :: v in versions && v.digest == a)
    || exists v :: v in versions && v.digest == b && (forall tag :: tag in v.tags ==> reg.subject(tag).Some?)
                   && exists tag :: tag in v.tags && reg.subject(tag) == Some(a)
  }

  /** A way from a version that carries a keeper tag to d. */
  ghost predicate Path(reg: Registry, versions: seq<Version>, path: seq<string>, d: string) {
    && path != [] && path[|path| - 1] == d
    && (exists v, tag :: v in versions && v.digest == path[0] && tag in v.tags && reg.keeper(tag))
    && (forall i {:trigger path[i]} :: 0 < i < |path| ==> Keeps(reg, versions, path[i - 1], path[i]))
  }

  ghost predicate Reached(reg: Registry, versions: seq<Version>, d: string) {
    exists path :: Path(reg, versions, path, d)
  }

  lemma KeepsIsClosed(reg: Registry, versions: seq<Version>, s: set<string>, a: string, b: string)
    requires Closed(reg, versions, s) && a in s && Keeps(reg, versions, a, b)
    ensures b in s
  {
    if !(b in reg.children(a) && exists v :: v in versions && v.digest == a) {
      var v, tag :| v in versions && v.digest == b && (forall t :: t in v.tags ==> reg.subject(t).Some?)
                    && tag in v.tags && reg.subject(tag) == Some(a);
      var i :| 0 <= i < |v.tags| && v.tags[i] == tag;
      assert forall k :: 0 <= k < |v.tags| ==> v.tags[k] in v.tags;
      assert a in Subjects(reg, v.tags) * s;
    }
  }

  lemma {:induction false} ReachedIsKept(reg: Registry, versions: seq<Version>, s: set<string>, path: seq<string>, d: string)
    requires Closed(reg, versions, s) && Path(reg, versions, path, d)
    ensures d in s
  {
    var n := |path| - 1;
    if n == 0 {
      var v, tag :| v in versions && v.digest == path[0] && tag in v.tags && reg.keeper(tag);
      var i :| 0 <= i < |v.tags| && v.tags[i] == tag;
      assert HasKeeperTag(reg, v);
    } else {
      assert Path(reg, versions, path[..n], path[n - 1]);
      ReachedIsKept(reg, versions, s, path[..n], path[n - 1]);
      KeepsIsClosed(reg, versions, s, path[n - 1], path[n]);
    }
  }

  lemma OneFurther(reg: Registry, versions: seq<Version>, a: string, b: string)
    requires Reached(reg, versions, a) && Keeps(reg, versions, a, b)
    ensures Reached(reg, versions, b)
  {
    var path :| Path(reg, versions, path, a);
    assert Path(reg, versions, path + [b], b);
  }

  lemma ReachedIsClosed(reg: Registry, versions: seq<Version>, s: set<string>)
    requires forall d :: d in s <==> d in Universe(reg, versions) && Reached(reg, versions, d)
    ensures Closed(reg, versions, s)
  {
    forall v | v in versions && HasKeeperTag(reg, v) ensures v.digest in s {
      var i :| 0 <= i < |v.tags| && reg.keeper(v.tags[i]);
      assert Path(reg, versions, [v.digest], v.digest) by {
        assert v.tags[i] in v.tags;
      }
    }
    forall v, c | v in versions && v.digest in s && c in reg.children(v.digest) ensures c in s {
      OneFurther(reg, versions, v.digest, c);
    }
    forall v | v in versions && Subjects(reg, v.tags) * s != {} ensures v.digest in s {
      var a :| a in Subjects(reg, v.tags) * s;
      var i :| 0 <= i < |v.tags| && reg.subject(v.tags[i]) == Some(a);
      assert v.tags[i] in v.tags;
      OneFurther(reg, versions, a, v.digest);
    }
  }

  /** A digest is kept exactly when a chain of children and referrers leads to it from a
      version that carries a keeper tag. */
  lemma KeptIffReached(reg: Registry, versions: seq<Version>, keep: set<string>, d: string)
    requires Least(reg, versions, keep)
    ensures d in keep <==> Reached(reg, versions, d)
  {
    if path :| Path(reg, versions, path, d) {
      ReachedIsKept(reg, versions, keep, path, d);
    }
    ghost var reached := set x | x in Universe(reg, versions) && Reached(reg, versions, x);
    ReachedIsClosed(reg, versions, reached);
  }

  // ---- the plan -----------------------------------------------------------------------

  datatype Fate = Kept | OutOfScope | TooYoung | InUse | Candidate

  predicate InScope(sw: Sweep, v: Version) {
    sw.only.None? || (v.tags != [] && forall i :: 0 <= i < |v.tags| ==> sw.only.value(v.tags[i]))
  }

  function Runs(sw: Sweep, v: Version): set<string> {
    set i | 0 <= i < |v.tags| && sw.runOf(v.tags[i]).Some? :: sw.runOf(v.tags[i]).value
  }

  /** The unfinished runs that tagged v; own is the run cleaning up after itself. */
  function Busy(sw: Sweep, v: Version, active: set<string>, own: string): set<string> {
    set r | r in Runs(sw, v) && r in active && (own == "" || r != own)
  }

  function FateOf(keep: set<string>, sw: Sweep, v: Version, active: set<string>, own: string): Fate {
    if v.digest in keep then Kept
    else if !InScope(sw, v) then OutOfScope
    else if sw.age(v.created) < sw.minAge then TooYoung
    else if Busy(sw, v, active, own) != {} then InUse
    else Candidate
  }

  /** The fate a sweep gives each version. */
  function Fates(keep: set<string>, sw: Sweep, active: set<string>, own: string): Version -> Fate {
    (v: Version) => FateOf(keep, sw, v, active, own)
  }

  /** The versions of one fate, in listing order. */
  function With(f: Version -> Fate, fate: Fate, vs: seq<Version>): seq<Version> {
    if vs == [] then []
    else With(f, fate, vs[..|vs| - 1]) + if f(vs[|vs| - 1]) == fate then [vs[|vs| - 1]] else []
  }

  /** The report of the versions in use: the digest and the runs that may still pull it. */
  function InUseRows(sw: Sweep, active: set<string>, own: string, vs: seq<Version>): seq<(string, set<string>)> {
    if vs == [] then []
    else
      var n := |vs| - 1;
      InUseRows(sw, active, own, vs[..n]) + [(vs[n].digest, Busy(sw, vs[n], active, own))]
  }

  function CreatedOf(v: Version): string { v.created }

  datatype Plan = Plan(keep: set<string>, delete: seq<Version>, tooYoung: nat, inUse: seq<(string, set<string>)>,
                       capped: nat, held: Option<Version>)

  /** in_flight_check: the active runs are fetched at most once. */
  class InFlightCheck {
    const own: string
    // What active_ids() answers, and how often it was asked.
    const active: set<string>
    var cache: Option<set<string>>
    var fetches: nat

    predicate Valid() reads this { fetches <= 1 && (cache.Some? ==> fetches == 1 && cache.value == active) && (cache.None? ==> fetches == 0) }

    method InFlight(run: string) returns (r: bool)
      requires Valid()
      modifies this
      ensures Valid() && r == (run in active && (own == "" || run != own))
      ensures run == own && own != "" ==> fetches == old(fetches)
    {
      if own != "" && run == own {
        return false;
      }
      if cache.None? {
        cache := Some(active);
        fetches := fetches + 1;
      }
      return run in cache.value;
    }

    method BusyRuns(sw: Sweep, v: Version) returns (busy: set<string>)
      requires Valid()
      modifies this
      ensures Valid() && busy == Busy(sw, v, active, own)
    {
      busy := {};
      var todo := Runs(sw, v);
      while todo != {}
        invariant Valid() && todo <= Runs(sw, v)
        invariant busy == Busy(sw, v, active, own) - todo
        decreases todo
      {
        var run :| run in todo;
        var r := InFlight(run);
        if r {
          busy := busy + {run};
        }
        todo := todo - {run};
      }
    }
  }

  /** The candidates sorted by age, oldest first. */
  function Sorted(f: Version -> Fate, vs: seq<Version>): seq<Version> {
    SortBy(CreatedOf, With(f, Candidate, vs))
  }

  lemma WithOneMore(f: Version -> Fate, vs: seq<Version>, i: nat)
    requires i < |vs|
    ensures forall fate :: With(f, fate, vs[..i + 1])
                        == if f(vs[i]) == fate then With(f, fate, vs[..i]) + [vs[i]] else With(f, fate, vs[..i])
  {
    assert vs[..i + 1][..i] == vs[..i];
  }

  lemma RowsOneMore(sw: Sweep, active: set<string>, own: string, vs: seq<Version>, v: Version)
    ensures InUseRows(sw, active, own, vs + [v]) == InUseRows(sw, active, own, vs) + [(v.digest, Busy(sw, v, active, own))]
  {
    assert (vs + [v])[..|vs|] == vs;
  }

  /** What the loop has collected after the versions vs. */
  ghost predicate Listed(f: Version -> Fate, sw: Sweep, active: set<string>, own: string, vs: seq<Version>,
                         delete: seq<Version>, tooYoung: nat, inUse: seq<(string, set<string>)>) {
    delete == With(f, Candidate, vs) && |delete| <= |vs|
    && tooYoung == |With(f, TooYoung, vs)|
    && inUse == InUseRows(sw, active, own, With(f, InUse, vs))
  }

  lemma ListedOneMore(f: Version -> Fate, sw: Sweep, active: set<string>, own: string, vs: seq<Version>, i: nat,
                      delete: seq<Version>, tooYoung: nat, inUse: seq<(string, set<string>)>)
    requires i < |vs| && Listed(f, sw, active, own, vs[..i], delete, tooYoung, inUse)
    ensures var v := vs[i];
            Listed(f, sw, active, own, vs[..i + 1],
                   if f(v) == Candidate then delete + [v] else delete,
                   if f(v) == TooYoung then tooYoung + 1 else tooYoung,
                   if f(v) == InUse then inUse + [(v.digest, Busy(sw, v, active, own))] else inUse)
  {
    WithOneMore(f, vs, i);
    if f(vs[i]) == InUse {
      RowsOneMore(sw, active, own, With(f, InUse, vs[..i]), vs[i]);
    }
  }

  /** The checks one version goes through, in order, with the runs that hold it. */
  method FateOfVersion(sw: Sweep, version: Version, keep: set<string>, check: InFlightCheck)
    returns (fate: Fate, busy: set<string>)
    requires check.Valid()
    modifies check
    ensures check.Valid()
    ensures fate == Fates(keep, sw, check.active, check.own)(version)
    ensures fate.InUse? ==> busy == Busy(sw, version, check.active, check.own)
  {
    busy := {};
    if version.digest in keep {
      return Kept, busy;
    }
    if sw.only.Some? {
      if version.tags == [] || !(forall k :: 0 <= k < |version.tags| ==> sw.only.value(version.tags[k])) {
        return OutOfScope, busy;
      }
    }
    if sw.age(version.created) < sw.minAge {
      return TooYoung, busy;
    }
    busy := check.BusyRuns(sw, version);
    fate := if busy != {} then InUse else Candidate;
  }

  /** The loop over the versions. */
  method Classify(sw: Sweep, versions: seq<Version>, keep: set<string>, check: InFlightCheck)
    returns (delete: seq<Version>, tooYoung: nat, inUse: seq<(string, set<string>)>)
    requires check.Valid()
    modifies check
    ensures check.Valid()
    ensures Listed(Fates(keep, sw, check.active, check.own), sw, check.active, check.own, versions, delete, tooYoung, inUse)
  {
    delete, tooYoung, inUse := [], 0, [];
    ghost var f := Fates(keep, sw, check.active, check.own);
    for i := 0 to |versions|
      invariant check.Valid()
      invariant Listed(f, sw, check.active, check.own, versions[..i], delete, tooYoung, inUse)
    {
      ListedOneMore(f, sw, check.active, check.own, versions, i, delete, tooYoung, inUse);
      var fate, busy := FateOfVersion(sw, versions[i], keep, check);
      assert fate == f(versions[i]);
      match fate {
        case TooYoung => tooYoung := tooYoung + 1;
        case InUse => inUse := inUse + [(versions[i].digest, busy)];
        case Candidate => delete := delete + [versions[i]];
        case _ =>
      }
    }
    assert versions[..|versions|] == versions;
  }

  /** Every guard a version has to pass before a sweep may delete it: nothing keeps it,
      with a pattern given it has tags and all of them match, it is old enough, and no
      tag names an unfinished run, this one's aside. */
  ghost predicate Deletable(keep: set<string>, sw: Sweep, v: Version, active: set<string>, own: string) {
    && v.digest !in keep
    && (sw.only.Some? ==> v.tags != [] && forall tag :: tag in v.tags ==> sw.only.value(tag))
    && sw.age(v.created) >= sw.minAge
    && (forall tag :: tag in v.tags && sw.runOf(tag).Some? && sw.runOf(tag).value in active ==>
          own != "" && sw.runOf(tag).value == own)
  }

  lemma CandidateIffDeletable(keep: set<string>, sw: Sweep, v: Version, active: set<string>, own: string)
    ensures FateOf(keep, sw, v, active, own) == Candidate <==> Deletable(keep, sw, v, active, own)
  {
    forall tag | tag in v.tags && sw.runOf(tag).Some? && sw.runOf(tag).value in active && !(own != "" && sw.runOf(tag).value == own)
      ensures Busy(sw, v, active, own) != {}
    {
      assert sw.runOf(tag).value in Busy(sw, v, active, own);
    }
    if r :| r in Busy(sw, v, active, own) {
      var i :| 0 <= i < |v.tags| && sw.runOf(v.tags[i]) == Some(r);
      assert v.tags[i] in v.tags;
    }
    assert forall i :: 0 <= i < |v.tags| ==> v.tags[i] in v.tags;
  }

  /** Why a version is reported and not deleted: the first guard it fails, in order. */
  lemma FirstGuardDecides(keep: set<string>, sw: Sweep, v: Version, active: set<string>, own: string)
    ensures FateOf(keep, sw, v, active, own) == Kept <==> v.digest in keep
    ensures FateOf(keep, sw, v, active, own) == OutOfScope
            ==> sw.only.Some? && (v.tags == [] || exists tag :: tag in v.tags && !sw.only.value(tag))
    ensures FateOf(keep, sw, v, active, own) == TooYoung
            ==> v.digest !in keep && sw.age(v.created) < sw.minAge && Deletable(keep, sw.(minAge := sw.age(v.created)), v, {}, own)
    ensures FateOf(keep, sw, v, active, own) == InUse
            ==> Deletable(keep, sw, v, {}, own)
                && exists tag :: tag in v.tags && sw.runOf(tag).Some? && sw.runOf(tag).value in active
                                 && (own == "" || sw.runOf(tag).value != own)
  {
    CandidateIffDeletable(keep, sw.(minAge := sw.age(v.created)), v, {}, own);
    CandidateIffDeletable(keep, sw, v, {}, own);
    if FateOf(keep, sw, v, active, own) == InUse {
      var r :| r in Busy(sw, v, active, own);
      var i :| 0 <= i < |v.tags| && sw.runOf(v.tags[i]) == Some(r);
      assert v.tags[i] in v.tags;
    }
  }

  /** The report of what is in use: each version held back and exactly the unfinished
      runs, this one's aside, that its tags name. */
  lemma {:induction false} InUseRowsTell(sw: Sweep, active: set<string>, own: string, vs: seq<Version>, row: (string, set<string>))
    ensures row in InUseRows(sw, active, own, vs)
            <==> exists v :: v in vs && v.digest == row.0 && HeldBy(sw, v, active, own, row.1)
  {
    if vs != [] {
      var n := |vs| - 1;
      InUseRowsTell(sw, active, own, vs[..n], row);
      assert vs == vs[..n] + [vs[n]];
      BusyIsHeldBy(sw, vs[n], active, own, row.1);
    }
  }

  ghost predicate HeldBy(sw: Sweep, v: Version, active: set<string>, own: string, runs: set<string>) {
    forall r :: r in runs <==> r in active && !(own != "" && r == own) && exists tag :: tag in v.tags && sw.runOf(tag) == Some(r)
  }

  lemma BusyIsHeldBy(sw: Sweep, v: Version, active: set<string>, own: string, runs: set<string>)
    ensures runs == Busy(sw, v, active, own) <==> HeldBy(sw, v, active, own, runs)
  {
    forall r ensures r in Runs(sw, v) <==> exists tag :: tag in v.tags && sw.runOf(tag) == Some(r) {
      if tag :| tag in v.tags && sw.runOf(tag) == Some(r) {
        var i :| 0 <= i < |v.tags| && v.tags[i] == tag;
      }
      assert forall i :: 0 <= i < |v.tags| ==> v.tags[i] in v.tags;
    }
  }

  /** How a plan cuts the candidates, oldest first, among total versions: the
      deletions, then the version held back, if any, then what the cap left. */
  ghost predicate Cut(plan: Plan, sorted: seq<Version>, total: nat, maxDeletions: nat) {
    var n, h := |plan.delete|, if plan.held.Some? then 1 else 0;
    && n + h + plan.capped == |sorted|
    && plan.delete == sorted[..n]
    && (plan.held.Some? ==> plan.held.value == sorted[n] && n + h == total)
    && (maxDeletions > 0 ==> n + h <= maxDeletions)
    && (plan.capped > 0 ==> maxDeletions > 0 && n + h == maxDeletions)
    && (total > 0 ==> n < total)
  }

  /** build_plan. */
  method BuildPlan(reg: Registry, sw: Sweep, versions: seq<Version>, check: InFlightCheck) returns (plan: Plan)
    requires check.Valid()
    modifies check
    ensures check.Valid()
    ensures Least(reg, versions, plan.keep)
    ensures var f := Fates(plan.keep, sw, check.active, check.own);
            && Cut(plan, Sorted(f, versions), |versions|, sw.maxDeletions)
            && plan.tooYoung == |With(f, TooYoung, versions)|
            && plan.inUse == InUseRows(sw, check.active, check.own, With(f, InUse, versions))
    ensures forall v :: v in plan.delete ==> v in versions && Deletable(plan.keep, sw, v, check.active, check.own)
    ensures forall v :: v in versions && Deletable(plan.keep, sw, v, check.active, check.own) ==>
              v in plan.delete || plan.held == Some(v) || (plan.capped > 0 && NoneYounger(plan.delete, v))
  {
    var keep := KeepSet(reg, versions);
    var delete, tooYoung, inUse := Classify(sw, versions, keep, check);
    SortByFacts(CreatedOf, delete);
    delete := SortBy(CreatedOf, delete);
    plan := CapAndHold(Plan(keep, delete, tooYoung, inUse, 0, None), |versions|, sw.maxDeletions);
    PlanDeletesTheDeletable(plan, sw, versions, check.active, check.own);
  }

  /** The cap, then the last-version guard. */
  method CapAndHold(plan0: Plan, total: nat, maxDeletions: nat) returns (plan: Plan)
    requires plan0.capped == 0 && plan0.held.None? && |plan0.delete| <= total
    ensures Cut(plan, plan0.delete, total, maxDeletions)
    ensures plan.keep == plan0.keep && plan.tooYoung == plan0.tooYoung && plan.inUse == plan0.inUse
  {
    var delete, capped: nat := plan0.delete, 0;
    if maxDeletions > 0 && |delete| > maxDeletions {
      capped := |delete| - maxDeletions;
      delete := delete[..maxDeletions];
    }
    var held: Option<Version> := None;
    if |delete| >= total && delete != [] {
      held := Some(delete[|delete| - 1]);
      delete := delete[..|delete| - 1];
    }
    plan := plan0.(delete := delete, capped := capped, held := held);
  }

  /** A version is listed under its own fate, as often as it is listed at all, and
      under no other. */
  lemma {:induction false} FatesPartition(f: Version -> Fate, fate: Fate, vs: seq<Version>, v: Version)
    ensures multiset(With(f, fate, vs))[v] == if f(v) == fate then multiset(vs)[v] else 0
  {
    if vs != [] {
      FatesPartition(f, fate, vs[..|vs| - 1], v);
      assert vs == vs[..|vs| - 1] + [vs[|vs| - 1]];
    }
  }

  lemma SplitCounts(s: seq<Version>, n: nat, m: nat, v: Version)
    requires n <= m <= |s|
    ensures multiset(s)[v] == multiset(s[..n])[v] + multiset(s[n..m])[v] + multiset(s[m..])[v]
  {
    assert s == s[..n] + s[n..];
    assert s[n..] == s[n..m] + s[m..];
  }

  lemma {:induction false} WithMembers(f: Version -> Fate, fate: Fate, vs: seq<Version>, v: Version)
    ensures v in With(f, fate, vs) <==> v in vs && f(v) == fate
  {
    if vs != [] {
      WithMembers(f, fate, vs[..|vs| - 1], v);
      assert vs == vs[..|vs| - 1] + [vs[|vs| - 1]];
    }
  }

  lemma SortedMembers(f: Version -> Fate, vs: seq<Version>, v: Version)
    ensures v in Sorted(f, vs) <==> v in vs && f(v) == Candidate
  {
    SortByMembers(CreatedOf, With(f, Candidate, vs), v);
    WithMembers(f, Candidate, vs, v);
  }

  lemma CandidateCounts(f: Version -> Fate, vs: seq<Version>, n: nat, m: nat, v: Version)
    requires n <= m <= |Sorted(f, vs)|
    ensures var sorted := Sorted(f, vs);
            multiset(sorted[..n])[v] + multiset(sorted[n..m])[v] + multiset(sorted[m..])[v]
            == if f(v) == Candidate then multiset(vs)[v] else 0
  {
    SortByFacts(CreatedOf, With(f, Candidate, vs));
    FatesPartition(f, Candidate, vs, v);
    SplitCounts(Sorted(f, vs), n, m, v);
  }

  lemma OldestFirst(f: Version -> Fate, vs: seq<Version>, i: nat, j: nat)
    requires i < j < |Sorted(f, vs)|
    ensures Le(Sorted(f, vs)[i].created, Sorted(f, vs)[j].created)
  {
    SortByFacts(CreatedOf, With(f, Candidate, vs));
    assert Le(CreatedOf(Sorted(f, vs)[i]), CreatedOf(Sorted(f, vs)[j]));
  }

  /** With FatesPartition: every version lands in exactly one of kept, out of
      scope, too young, in use, deleted, held back and capped, counted with
      repetition; and the deletions are the oldest of the candidates. */
  lemma PlanPartition(f: Version -> Fate, vs: seq<Version>, plan: Plan, maxDeletions: nat, v: Version, i: nat, j: nat)
    requires Cut(plan, Sorted(f, vs), |vs|, maxDeletions)
    ensures var sorted, n, m := Sorted(f, vs), |plan.delete|, |Sorted(f, vs)| - plan.capped;
            && multiset(plan.delete)[v] + multiset(sorted[n..m])[v] + multiset(sorted[m..])[v]
               == (if f(v) == Candidate then multiset(vs)[v] else 0)
            && m - n == (if plan.held.Some? then 1 else 0)
            && (i < n <= j < |sorted| ==> Le(plan.delete[i].created, sorted[j].created))
  {
    CandidateCounts(f, vs, |plan.delete|, |Sorted(f, vs)| - plan.capped, v);
    if i < |plan.delete| <= j < |Sorted(f, vs)| {
      OldestFirst(f, vs, i, j);
    }
  }

  // ---- sweep after sweep -------------------------------------------------------------------

  /** after is what is left of before when some of the planned deletions, all or
      fewer, went through. */
  ghost predicate Removes(before: seq<Version>, after: seq<Version>, delete: seq<Version>) {
    && (forall v :: v in after ==> v in before)
    && (forall v :: v in before && v !in after ==> v in delete)
  }

  /** Deleting versions outside the keep set leaves the keep set what it was. */
  lemma DeletionKeepsLeast(reg: Registry, before: seq<Version>, after: seq<Version>, delete: seq<Version>, keep: set<string>)
    requires Least(reg, before, keep) && Removes(before, after, delete)
    requires forall v :: v in delete ==> v.digest !in keep
    ensures Least(reg, after, keep)
  {
    forall s | Closed(reg, after, s) ensures keep <= s {
      assert Closed(reg, before, s * keep) by {
        forall v | v in before && Subjects(reg, v.tags) * (s * keep) != {} ensures v.digest in s * keep {
          var x :| x in Subjects(reg, v.tags) * (s * keep);
          assert x in Subjects(reg, v.tags) * keep && x in Subjects(reg, v.tags) * s;
        }
      }
    }
  }

  /** Every one of them is at least as old as v. */
  ghost predicate NoneYounger(vs: seq<Version>, v: Version) { forall x :: x in vs ==> Le(x.created, v.created) }

  /** A plan deletes only what passes every guard, and what passes them all and is not
      deleted is the version held back, or was left by the cap to older ones. */
  lemma PlanDeletesTheDeletable(plan: Plan, sw: Sweep, vs: seq<Version>, active: set<string>, own: string)
    requires Cut(plan, Sorted(Fates(plan.keep, sw, active, own), vs), |vs|, sw.maxDeletions)
    ensures forall v :: v in plan.delete ==> v in vs && Deletable(plan.keep, sw, v, active, own)
    ensures forall v :: v in vs && Deletable(plan.keep, sw, v, active, own) ==>
              v in plan.delete || plan.held == Some(v) || (plan.capped > 0 && NoneYounger(plan.delete, v))
  {
    var f := Fates(plan.keep, sw, active, own);
    var sorted, n := Sorted(f, vs), |plan.delete|;
    forall v | v in plan.delete ensures v in vs && Deletable(plan.keep, sw, v, active, own) {
      SortedMembers(f, vs, v);
      CandidateIffDeletable(plan.keep, sw, v, active, own);
    }
    forall v | v in vs && Deletable(plan.keep, sw, v, active, own)
      ensures v in plan.delete || plan.held == Some(v) || (plan.capped > 0 && NoneYounger(plan.delete, v))
    {
      CandidateIffDeletable(plan.keep, sw, v, active, own);
      SortedMembers(f, vs, v);
      var j :| 0 <= j < |sorted| && sorted[j] == v;
      if j < n {
        assert plan.delete[j] == v;
      } else {
        forall x | x in plan.delete ensures Le(x.created, v.created) {
          var i :| 0 <= i < n && plan.delete[i] == x;
          OldestFirst(f, vs, i, j);
        }
      }
    }
  }

  /** The deletions of a plan are outside its keep set. */
  lemma PlannedOutsideKeep(keep: set<string>, sw: Sweep, vs: seq<Version>, active: set<string>, own: string, n: nat)
    requires n <= |Sorted(Fates(keep, sw, active, own), vs)|
    ensures forall v :: v in Sorted(Fates(keep, sw, active, own), vs)[..n] ==> v in vs && v.digest !in keep
  {
    var f := Fates(keep, sw, active, own);
    forall v | v in Sorted(f, vs)[..n] ensures v in vs && v.digest !in keep {
      SortedMembers(f, vs, v);
    }
  }

  /** One sweep of a run: its options, the runs active then, and how many of the
      oldest candidates its plan deletes. */
  datatype Round = Round(sw: Sweep, active: set<string>, own: string, deletions: nat)

  /** What a round's plan deletes, on this listing and keep set. */
  function Planned(r: Round, listing: seq<Version>, keep: set<string>): seq<Version> {
    var sorted := Sorted(Fates(keep, r.sw, r.active, r.own), listing);
    if r.deletions <= |sorted| then sorted[..r.deletions] else sorted
  }

  ghost predicate IsRun(reg: Registry, listings: seq<seq<Version>>, keeps: seq<set<string>>, rounds: seq<Round>) {
    && |listings| == |keeps| == |rounds| + 1
    && (forall i {:trigger keeps[i]} :: 0 <= i < |keeps| ==> Least(reg, listings[i], keeps[i]))
    && forall i {:trigger rounds[i]} :: 0 <= i < |rounds| ==>
         Removes(listings[i], listings[i + 1], Planned(rounds[i], listings[i], keeps[i]))
  }

  /** While tags and manifests stay as they are, every plan of every run of sweeps
      has the same keep set, whatever the ages, caps, patterns and active runs and
      whichever deletions fail; so no number of sweeps deletes a kept version, a
      child of one or a referrer of one. */
  lemma {:induction false} KeptForever(reg: Registry, listings: seq<seq<Version>>, keeps: seq<set<string>>,
                                      rounds: seq<Round>, n: nat)
    requires IsRun(reg, listings, keeps, rounds) && n <= |rounds|
    ensures keeps[n] == keeps[0]
    ensures forall v :: v in listings[0] && v.digest in keeps[0] ==> v in listings[n]
  {
    if n > 0 {
      KeptForever(reg, listings, keeps, rounds, n - 1);
      var r := rounds[n - 1];
      var sorted := Sorted(Fates(keeps[n - 1], r.sw, r.active, r.own), listings[n - 1]);
      var delete := Planned(r, listings[n - 1], keeps[n - 1]);
      assert sorted[..|sorted|] == sorted;
      PlannedOutsideKeep(keeps[n - 1], r.sw, listings[n - 1], r.active, r.own, |delete|);
      DeletionKeepsLeast(reg, listings[n - 1], listings[n], delete, keeps[n - 1]);
      KeepSetIgnoresOrder(reg, listings[n], listings[n], keeps[n], keeps[n - 1]);
    }
  }

  /** The deletions the API accepts, in order. */
  function Accepted(fails: Version -> bool, vs: seq<Version>): seq<Version> {
    if vs == [] then []
    else
      var n := |vs| - 1;
      Accepted(fails, vs[..n]) + if fails(vs[n]) then [] else [vs[n]]
  }

  lemma {:induction false} AcceptedMembers(fails: Version -> bool, vs: seq<Version>, v: Version)
    ensures v in Accepted(fails, vs) <==> v in vs && !fails(v)
  {
    if vs != [] {
      var n := |vs| - 1;
      AcceptedMembers(fails, vs[..n], v);
      assert vs == vs[..n] + [vs[n]];
    }
  }

  /** The deletions of a plan, one by one. */
  method DeletePlanned(delete: seq<Version>, dryRun: bool, fails: Version -> bool) returns (deleted: seq<Version>, ok: bool)
    ensures deleted == if dryRun then [] else Accepted(fails, delete)
    ensures ok <==> dryRun || forall v :: v in delete ==> !fails(v)
  {
    deleted, ok := [], true;
    for i := 0 to |delete|
      invariant deleted == if dryRun then [] else Accepted(fails, delete[..i])
      invariant ok <==> dryRun || forall v :: v in delete[..i] ==> !fails(v)
    {
      assert delete[..i + 1][..i] == delete[..i];
      assert delete[..i + 1] == delete[..i] + [delete[i]];
      if dryRun {
        continue;
      }
      if fails(delete[i]) {
        ok := false;
      } else {
        deleted := deleted + [delete[i]];
      }
    }
    assert delete[..|delete|] == delete;
  }

  /** main from the plan on: the plan's deletions, none on a dry run, and none when
      a full sweep's keep set is empty. */
  method SweepPackage(reg: Registry, sw: Sweep, versions: seq<Version>, check: InFlightCheck, dryRun: bool,
                      fails: Version -> bool)
    returns (plan: Option<Plan>, deleted: seq<Version>, ok: bool)
    requires check.Valid()
    modifies check
    ensures plan.None? <==> versions == []
    ensures plan.Some? ==> Least(reg, versions, plan.value.keep)
    ensures plan.Some? ==> Cut(plan.value, Sorted(Fates(plan.value.keep, sw, check.active, check.own), versions), |versions|, sw.maxDeletions)
    ensures deleted == if plan.None? || dryRun || (plan.value.keep == {} && sw.only.None?) then []
                       else Accepted(fails, plan.value.delete)
    ensures forall v :: v in deleted ==> v in versions && Deletable(plan.value.keep, sw, v, check.active, check.own)
    ensures ok <==> plan.None? || (!(plan.value.keep == {} && sw.only.None?)
                                   && (dryRun || forall v :: v in plan.value.delete ==> !fails(v)))
  {
    plan, deleted, ok := None, [], true;
    if versions == [] {
      return;
    }
    var p := BuildPlan(reg, sw, versions, check);
    plan := Some(p);
    if p.keep == {} && sw.only.None? {
      return plan, [], false;
    }
    deleted, ok := DeletePlanned(p.delete, dryRun, fails);
    forall v | v in deleted ensures v in p.delete {
      AcceptedMembers(fails, p.delete, v);
    }
  }

  /** So nothing a sweep deletes is kept. */
  lemma DeletedIsOutsideKeep(plan: Plan, sw: Sweep, vs: seq<Version>, active: set<string>, own: string, fails: Version -> bool, v: Version)
    requires Cut(plan, Sorted(Fates(plan.keep, sw, active, own), vs), |vs|, sw.maxDeletions)
    requires v in Accepted(fails, plan.delete)
    ensures v in vs && v.digest !in plan.keep
  {
    AcceptedMembers(fails, plan.delete, v);
    PlannedOutsideKeep(plan.keep, sw, vs, active, own, |plan.delete|);
  }

  /** What a sweep that accepted these deletions leaves listed is a step of the runs
      above, and every kept version is still listed. */
  lemma SweepIsARound(reg: Registry, plan: Plan, sw: Sweep, vs: seq<Version>, active: set<string>, own: string,
                      fails: Version -> bool, after: seq<Version>)
    requires Least(reg, vs, plan.keep)
    requires Cut(plan, Sorted(Fates(plan.keep, sw, active, own), vs), |vs|, sw.maxDeletions)
    requires forall v :: v in after <==> v in vs && v !in Accepted(fails, plan.delete)
    ensures Planned(Round(sw, active, own, |plan.delete|), vs, plan.keep) == plan.delete
    ensures Removes(vs, after, plan.delete) && Least(reg, after, plan.keep)
    ensures forall v :: v in vs && v.digest in plan.keep ==> v in after
  {
    forall v | v in vs && v !in after ensures v in plan.delete {
      AcceptedMembers(fails, plan.delete, v);
    }
    forall v | v in vs && v.digest in plan.keep ensures v in after {
      if v in Accepted(fails, plan.delete) {
        DeletedIsOutsideKeep(plan, sw, vs, active, own, fails, v);
      }
    }
    PlannedOutsideKeep(plan.keep, sw, vs, active, own, |plan.delete|);
    DeletionKeepsLeast(reg, vs, after, plan.delete, plan.keep);
  }
}
