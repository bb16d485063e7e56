/** Who owns an object on a target cluster (internal/common/multicluster/ownership.go)
    and the write path that gates on it (internal/common/apply/apply.go). */
module Ownership {
  import opened Wrappers
  import opened Text

  const OWNER_KIND := "openstack.c5c3.io/owner-kind"
  const OWNER_NAME := "openstack.c5c3.io/owner-name"
  const OWNER_NAMESPACE := "openstack.c5c3.io/owner-namespace"
  const MAX_OWNER_NAME_LENGTH := 63

  datatype Owner = Owner(group: string, kind: string, namespace: string, name: string, uid: string)

  /** group is None when the reference's apiVersion does not parse. */
  datatype OwnerRef = OwnerRef(group: Option<string>, kind: string, name: string, uid: string, controller: bool)

  /** An empty uid means no API server has seen the object yet. */
  datatype Object = Object(uid: string, labels: map<string, string>, refs: seq<OwnerRef>, spec: string)

  datatype ClaimError = NameTooLong | NotOurs

  function OwnerLabels(o: Owner): map<string, string> {
    map[OWNER_KIND := o.kind, OWNER_NAME := o.name, OWNER_NAMESPACE := o.namespace]
  }

  function OwnershipKeys(): set<string> { {OWNER_KIND, OWNER_NAME, OWNER_NAMESPACE} }

  /** metav1.GetControllerOf: the first reference marked controller. */
  function ControllerOf(refs: seq<OwnerRef>): Option<OwnerRef> {
    if refs == [] then None
    else if refs[0].controller then Some(refs[0])
    else ControllerOf(refs[1..])
  }

  predicate ControlledByRef(o: Owner, obj: Object) {
    ControllerOf(obj.refs).Some? && ControllerOf(obj.refs).value.uid == o.uid
  }

  predicate ControlledByLabels(o: Owner, obj: Object) {
    forall key :: key in OwnerLabels(o) ==> Lookup(obj.labels, key) == OwnerLabels(o)[key]
  }

  predicate Controls(o: Owner, obj: Object) { ControlledByRef(o, obj) || ControlledByLabels(o, obj) }

  predicate NamesOwner(ref: OwnerRef, o: Owner) {
    ref.controller && ref.kind == o.kind && ref.name == o.name && ref.group == Some(o.group)
  }

  function Kept(refs: seq<OwnerRef>, o: Owner): seq<OwnerRef> {
    if refs == [] then []
    else (if NamesOwner(refs[0], o) then [] else [refs[0]]) + Kept(refs[1..], o)
  }

  /** Claim against a target cluster. */
  function Claim(o: Owner, obj: Object): Result<Object, ClaimError> {
    if |o.name| > MAX_OWNER_NAME_LENGTH then Err(NameTooLong)
    else if obj.uid != "" && !Controls(o, obj) then Err(NotOurs)
    else Ok(obj.(refs := Kept(obj.refs, o), labels := obj.labels + OwnerLabels(o)))
  }

  function ClaimWithLabels(o: Owner, obj: Object, labels: map<string, string>): Result<Object, ClaimError> {
    var claimed := Claim(o, obj);
    if claimed.Err? then claimed else Ok(claimed.value.(labels := labels + OwnerLabels(o)))
  }

  // ---- the code, statement by statement ------------------------------------------------

  /** An object in memory, claimed in place. */
  class ChildObject {
    const uid: string
    var labels: map<string, string>
    var refs: seq<OwnerRef>
    var spec: string

    function Value(): Object reads this { Object(uid, labels, refs, spec) }

    method DropControllerRef(o: Owner)
      modifies this`refs
      ensures refs == Kept(old(refs), o)
    {
      var kept := [];
      for i := 0 to |refs|
        invariant refs == old(refs)
        invariant kept + Kept(refs[i..], o) == Kept(refs, o)
      {
        assert refs[i..][1..] == refs[i + 1..];
        if !NamesOwner(refs[i], o) {
          kept := kept + [refs[i]];
        }
      }
      if |kept| != |refs| {
        refs := kept;
      } else {
        KeptAll(refs, o);
      }
    }

    method StampLabels(ownerLabels: map<string, string>)
      modifies this`labels
      ensures labels == old(labels) + ownerLabels
    {
      var stamped := labels;
      var todo := ownerLabels.Keys;
      while todo != {}
        invariant todo <= ownerLabels.Keys && labels == old(labels)
        invariant stamped == old(labels) + (ownerLabels - todo)
        decreases todo
      {
        var key :| key in todo;
        stamped := stamped[key := ownerLabels[key]];
        todo := todo - {key};
      }
      assert ownerLabels - {} == ownerLabels;
      labels := stamped;
    }

    method ClaimRemote(o: Owner) returns (err: Option<ClaimError>)
      modifies this
      ensures var r := Claim(o, old(Value()));
              if r.Ok? then err == None && Value() == r.value else err == Some(r.error) && Value() == old(Value())
    {
      if |o.name| > MAX_OWNER_NAME_LENGTH {
        return Some(NameTooLong);
      }
      if uid != "" && !Controls(o, Value()) {
        return Some(NotOurs);
      }
      DropControllerRef(o);
      StampLabels(OwnerLabels(o));
      return None;
    }

    method ClaimRemoteWithLabels(o: Owner, own: map<string, string>) returns (err: Option<ClaimError>)
      modifies this
      ensures var r := ClaimWithLabels(o, old(Value()), own);
              if r.Ok? then err == None && Value() == r.value else err == Some(r.error) && Value() == old(Value())
    {
      err := ClaimRemote(o);
      if err.Some? {
        return;
      }
      labels := own + OwnerLabels(o);
    }
  }

  lemma {:induction false} KeptAll(refs: seq<OwnerRef>, o: Owner)
    ensures |Kept(refs, o)| <= |refs|
    ensures |Kept(refs, o)| == |refs| ==> Kept(refs, o) == refs
  {
    if refs != [] {
      KeptAll(refs[1..], o);
    }
  }

  // ---- what a claim leaves ------------------------------------------------------------------

  /** The API server admits at most one controller reference per object. */
  ghost predicate OneController(refs: seq<OwnerRef>) {
    forall i, j :: 0 <= i < j < |refs| ==> !(refs[i].controller && refs[j].controller)
  }

  ghost predicate SubsequenceOf(xs: seq<OwnerRef>, ys: seq<OwnerRef>) {
    xs == [] || (ys != [] && ((xs[0] == ys[0] && SubsequenceOf(xs[1..], ys[1..])) || SubsequenceOf(xs, ys[1..])))
  }

  lemma SubsequenceCons(x: OwnerRef, xs: seq<OwnerRef>, ys: seq<OwnerRef>)
    requires SubsequenceOf(xs, ys)
    ensures SubsequenceOf([x] + xs, [x] + ys) && SubsequenceOf(xs, [x] + ys)
  {
    assert ([x] + xs)[1..] == xs && ([x] + ys)[1..] == ys;
  }

  lemma {:induction false} KeptFacts(refs: seq<OwnerRef>, o: Owner)
    ensures SubsequenceOf(Kept(refs, o), refs)
    ensures forall r :: multiset(Kept(refs, o))[r] == if NamesOwner(r, o) then 0 else multiset(refs)[r]
  {
    if refs != [] {
      var rest := Kept(refs[1..], o);
      KeptFacts(refs[1..], o);
      SubsequenceCons(refs[0], rest, refs[1..]);
      assert refs == [refs[0]] + refs[1..];
      assert Kept(refs, o) == if NamesOwner(refs[0], o) then rest else [refs[0]] + rest;
    }
  }

  lemma {:induction false} SubsequenceMembers(xs: seq<OwnerRef>, ys: seq<OwnerRef>, r: OwnerRef)
    requires SubsequenceOf(xs, ys) && r in xs
    ensures r in ys
    decreases |ys|
  {
    if xs[0] == ys[0] && SubsequenceOf(xs[1..], ys[1..]) {
      assert xs == [xs[0]] + xs[1..];
      if r != xs[0] {
        SubsequenceMembers(xs[1..], ys[1..], r);
      }
    } else {
      SubsequenceMembers(xs, ys[1..], r);
    }
  }

  lemma {:induction false} ControllerIsFirst(refs: seq<OwnerRef>, i: nat)
    requires OneController(refs) && i < |refs| && refs[i].controller
    ensures ControllerOf(refs) == Some(refs[i])
  {
    if i > 0 {
      ControllerIsFirst(refs[1..], i - 1);
    }
  }

  lemma {:induction false} ControllerOfIsMember(refs: seq<OwnerRef>)
    ensures ControllerOf(refs).Some? ==> ControllerOf(refs).value in refs && ControllerOf(refs).value.controller
  {
    if refs != [] {
      ControllerOfIsMember(refs[1..]);
    }
  }

  lemma {:induction false} SubsequenceOneController(xs: seq<OwnerRef>, ys: seq<OwnerRef>)
    requires SubsequenceOf(xs, ys) && OneController(ys)
    ensures OneController(xs)
    decreases |ys|
  {
    if xs != [] {
      if xs[0] == ys[0] && SubsequenceOf(xs[1..], ys[1..]) {
        SubsequenceOneController(xs[1..], ys[1..]);
        forall j | 0 < j < |xs| ensures !(xs[0].controller && xs[j].controller) {
          assert xs[j] in xs[1..] by { assert xs[1..][j - 1] == xs[j]; }
          SubsequenceMembers(xs[1..], ys[1..], xs[j]);
          var k :| 0 <= k < |ys[1..]| && ys[1..][k] == xs[j];
          assert ys[k + 1] == xs[j];
        }
        forall i, j | 0 <= i < j < |xs| ensures !(xs[i].controller && xs[j].controller) {
          if i > 0 {
            assert xs[i] == xs[1..][i - 1] && xs[j] == xs[1..][j - 1];
          }
        }
      } else {
        SubsequenceOneController(xs, ys[1..]);
      }
    }
  }

  /** Dropping references reveals no other controller. */
  lemma NoControllerRevealed(xs: seq<OwnerRef>, ys: seq<OwnerRef>)
    requires SubsequenceOf(xs, ys) && OneController(ys)
    ensures OneController(xs)
    ensures ControllerOf(xs).Some? ==> ControllerOf(xs) == ControllerOf(ys)
  {
    SubsequenceOneController(xs, ys);
    ControllerOfIsMember(xs);
    if ControllerOf(xs).Some? {
      SubsequenceMembers(xs, ys, ControllerOf(xs).value);
      var i :| 0 <= i < |ys| && ys[i] == ControllerOf(xs).value;
      ControllerIsFirst(ys, i);
    }
  }

  /** A successful claim leaves the object recognized by its owner, with every
      other label and every other reference intact, and a refused one leaves no
      trace because the code writes only after both checks. */
  lemma ClaimIntact(o: Owner, obj: Object)
    requires Claim(o, obj).Ok?
    ensures var r := Claim(o, obj).value;
            && ControlledByLabels(o, r) && r.uid == obj.uid && r.spec == obj.spec
            && (forall key :: key !in OwnershipKeys() ==>
                  (key in r.labels <==> key in obj.labels) && (key in obj.labels ==> r.labels[key] == obj.labels[key]))
            && SubsequenceOf(r.refs, obj.refs)
            && (forall ref :: multiset(r.refs)[ref] == if NamesOwner(ref, o) then 0 else multiset(obj.refs)[ref])
  {
    KeptFacts(obj.refs, o);
  }

  /** A reference goes only if it is a controller reference of that group, kind and name. */
  lemma OnlyItsReferenceGoes(o: Owner, obj: Object, ref: OwnerRef)
    requires Claim(o, obj).Ok?
    ensures ref in Claim(o, obj).value.refs
            <==> ref in obj.refs && !(ref.controller && ref.group == Some(o.group) && ref.kind == o.kind && ref.name == o.name)
  {
    KeptFacts(obj.refs, o);
    var refs := Claim(o, obj).value.refs;
    assert ref in refs <==> multiset(refs)[ref] > 0;
    assert ref in obj.refs <==> multiset(obj.refs)[ref] > 0;
  }

  /** Who may claim: an owner with a name that fits a label, an object nobody created yet
      or one it controls already. */
  lemma ClaimsIff(o: Owner, obj: Object)
    ensures Claim(o, obj).Ok? <==> |o.name| <= 63 && (obj.uid == "" || Controls(o, obj))
    ensures Claim(o, obj) == Err(NameTooLong) <==> |o.name| > 63
  {}

  /** An object that a controller reference ties to its owner, from before ownership
      moved to labels, is adopted: claimed, labelled, freed of that reference, and
      recognized from then on. */
  lemma LegacyChildIsAdopted(o: Owner, obj: Object, i: nat)
    requires |o.name| <= 63 && OneController(obj.refs) && i < |obj.refs|
    requires obj.refs[i] == OwnerRef(Some(o.group), o.kind, o.name, o.uid, true)
    ensures Claim(o, obj).Ok?
    ensures var r := Claim(o, obj).value;
            && Controls(o, r) && ControllerOf(r.refs).None? && obj.refs[i] !in r.refs
            && r.labels == obj.labels[OWNER_KIND := o.kind][OWNER_NAME := o.name][OWNER_NAMESPACE := o.namespace]
  {
    ControllerIsFirst(obj.refs, i);
    var r := Claim(o, obj).value;
    KeptFacts(obj.refs, o);
    assert multiset(r.refs)[obj.refs[i]] == 0;
    ControllerOfIsMember(r.refs);
    if ControllerOf(r.refs).Some? {
      NoControllerRevealed(r.refs, obj.refs);
    }
    assert r.labels == obj.labels[OWNER_KIND := o.kind][OWNER_NAME := o.name][OWNER_NAMESPACE := o.namespace];
  }

  lemma {:induction false} KeptTwice(refs: seq<OwnerRef>, o: Owner)
    ensures Kept(Kept(refs, o), o) == Kept(refs, o)
  {
    if refs != [] {
      var rest := Kept(refs[1..], o);
      KeptTwice(refs[1..], o);
      if NamesOwner(refs[0], o) {
        assert Kept(refs, o) == rest;
      } else {
        assert Kept(refs, o) == [refs[0]] + rest && ([refs[0]] + rest)[1..] == rest;
      }
    }
  }

  /** A second claim changes nothing, whether the object was created in between or not. */
  lemma ClaimTwice(o: Owner, obj: Object, uid: string)
    requires Claim(o, obj).Ok?
    ensures var r := Claim(o, obj).value.(uid := uid);
            Claim(o, r) == Ok(r)
  {
    KeptTwice(obj.refs, o);
    assert (obj.labels + OwnerLabels(o)) + OwnerLabels(o) == obj.labels + OwnerLabels(o);
  }

  /** The rebuild keeps the caller's labels and the ownership labels, nothing else. */
  lemma RebuildRecognized(o: Owner, obj: Object, labels: map<string, string>)
    requires ClaimWithLabels(o, obj, labels).Ok?
    ensures var r := ClaimWithLabels(o, obj, labels).value;
            && ControlledByLabels(o, r) && SubsequenceOf(r.refs, obj.refs)
            && (forall key :: key !in OwnershipKeys() ==> (key in r.labels <==> key in labels))
  {
    KeptFacts(obj.refs, o);
  }

  /** The order inside ClaimWithLabels matters: rebuilding the labels first makes
      Claim refuse the owner's own child, unless a reference still names it. */
  lemma RebuildFirstRefuses(o: Owner, obj: Object, labels: map<string, string>)
    requires obj.uid != "" && |o.name| <= MAX_OWNER_NAME_LENGTH
    requires Controls(o, obj) && !ControlledByRef(o, obj)
    ensures ClaimWithLabels(o, obj, labels).Ok?
    ensures Claim(o, obj.(labels := labels)).Ok? <==> ControlledByLabels(o, obj.(labels := labels))
  {
  }

  // ---- one target cluster, many owners ----------------------------------------------------------

  /** Owners differ in kind, namespace or name, and in UID. */
  ghost predicate Apart(owners: set<Owner>) {
    forall a, b :: a in owners && b in owners && a != b ==>
      a.uid != b.uid && (a.kind != b.kind || a.namespace != b.namespace || a.name != b.name)
  }

  ghost predicate AtMostOneOwner(owners: set<Owner>, obj: Object) {
    && OneController(obj.refs)
    && forall a, b :: a in owners && b in owners && Controls(a, obj) && Controls(b, obj) ==> a == b
  }

  type Cluster = map<string, Object>

  ghost predicate Inv(owners: set<Owner>, c: Cluster) {
    forall id :: id in c ==> AtMostOneOwner(owners, c[id])
  }

  /** Server-Side Apply under the shared field manager: asserted fields win, other
      fields stay unless the manager owned them and asserts them no longer; which
      ones those are is left open. */
  function Apply(live: Object, desired: Object, shedLabels: set<string>, keepRef: OwnerRef -> bool): Object {
    Object(live.uid, (live.labels - shedLabels) + desired.labels, Filter(live.refs, keepRef), desired.spec)
  }

  function Filter(refs: seq<OwnerRef>, keepRef: OwnerRef -> bool): seq<OwnerRef> {
    if refs == [] then []
    else (if keepRef(refs[0]) then [refs[0]] else []) + Filter(refs[1..], keepRef)
  }

  /** ensureRemoteObject: the live object is claimed as a check and thrown away,
      the desired one is claimed and applied. */
  function Ensure(o: Owner, c: Cluster, id: string, desired: Object, newUid: string,
                  shedLabels: set<string>, keepRef: OwnerRef -> bool): Cluster
  {
    if id in c && Claim(o, c[id]).Err? then c
    else if Claim(o, desired).Err? then c
    else
      var claimed := Claim(o, desired).value;
      c[id := if id in c then Apply(c[id], claimed, shedLabels, keepRef) else claimed.(uid := newUid)]
  }

  datatype Step =
    | EnsureStep(id: string, desired: Object, newUid: string, shedLabels: set<string>, keepRef: OwnerRef -> bool)
    | ClaimStep(id: string)
    | RelabelStep(id: string, labels: map<string, string>)
    | SweepStep(id: string)

  /** A builder hands over a fresh object with no owner reference. */
  predicate WellFormed(s: Step) {
    s.EnsureStep? ==> s.desired.uid == "" && s.desired.refs == [] && s.newUid != ""
  }

  /** One write of one owner; the live read and the write are not interleaved. */
  function Act(o: Owner, c: Cluster, s: Step): Cluster {
    match s
    case EnsureStep(id, desired, newUid, shed, keepRef) => Ensure(o, c, id, desired, newUid, shed, keepRef)
    case ClaimStep(id) => if id in c && Claim(o, c[id]).Ok? then c[id := Claim(o, c[id]).value] else c
    case RelabelStep(id, labels) =>
      if id in c && ClaimWithLabels(o, c[id], labels).Ok? then c[id := ClaimWithLabels(o, c[id], labels).value] else c
    case SweepStep(id) => if id in c && Controls(o, c[id]) then c - {id} else c
  }

  lemma {:induction false} FilterIsSubsequence(refs: seq<OwnerRef>, keepRef: OwnerRef -> bool)
    ensures SubsequenceOf(Filter(refs, keepRef), refs)
  {
    if refs != [] {
      var rest := Filter(refs[1..], keepRef);
      FilterIsSubsequence(refs[1..], keepRef);
      SubsequenceCons(refs[0], rest, refs[1..]);
      assert refs == [refs[0]] + refs[1..];
      assert Filter(refs, keepRef) == if keepRef(refs[0]) then [refs[0]] + rest else rest;
    }
  }

  /** An object that carries o's labels and no controller but one that was there
      while o controlled it is o's alone. */
  lemma StaysSingle(owners: set<Owner>, o: Owner, before: Object, after: Object)
    requires Apart(owners) && o in owners && AtMostOneOwner(owners, before) && Controls(o, before)
    requires ControlledByLabels(o, after) && SubsequenceOf(after.refs, before.refs)
    ensures AtMostOneOwner(owners, after)
  {
    NoControllerRevealed(after.refs, before.refs);
    forall b | b in owners && Controls(b, after) ensures b == o {
      if ControlledByLabels(b, after) {
        assert OWNER_KIND in OwnerLabels(b) && OWNER_NAME in OwnerLabels(b) && OWNER_NAMESPACE in OwnerLabels(b);
        assert OWNER_KIND in OwnerLabels(o) && OWNER_NAME in OwnerLabels(o) && OWNER_NAMESPACE in OwnerLabels(o);
      } else {
        assert Controls(b, before);
      }
    }
  }

  lemma FreshIsSingle(owners: set<Owner>, o: Owner, obj: Object)
    requires Apart(owners) && o in owners && ControlledByLabels(o, obj) && obj.refs == []
    ensures AtMostOneOwner(owners, obj)
  {
    forall b | b in owners && Controls(b, obj) ensures b == o {
      assert OWNER_KIND in OwnerLabels(b) && OWNER_NAME in OwnerLabels(b) && OWNER_NAMESPACE in OwnerLabels(b);
      assert OWNER_KIND in OwnerLabels(o) && OWNER_NAME in OwnerLabels(o) && OWNER_NAMESPACE in OwnerLabels(o);
    }
  }

  /** What a step of o may do to the one object it names. */
  ghost predicate OwnWrite(owners: set<Owner>, o: Owner, c: Cluster, c': Cluster, id: string) {
    && (forall k :: k != id ==> (k in c <==> k in c') && (k in c ==> c'[k] == c[k]))
    && (id in c && !Controls(o, c[id]) ==> id in c' && c'[id] == c[id])
    && (id in c' && (id !in c || c'[id] != c[id]) ==>
          AtMostOneOwner(owners, c'[id]) && ControlledByLabels(o, c'[id]) && c'[id].uid != "")
  }

  lemma EnsureIsOwnWrite(owners: set<Owner>, o: Owner, c: Cluster, s: Step)
    requires Apart(owners) && o in owners && Inv(owners, c) && WellFormed(s) && s.EnsureStep?
    requires s.id in c ==> c[s.id].uid != ""
    ensures OwnWrite(owners, o, c, Act(o, c, s), s.id)
  {
    if |o.name| <= MAX_OWNER_NAME_LENGTH {
      ClaimIntact(o, s.desired);
      var claimed := Claim(o, s.desired).value;
      if s.id in c {
        if Controls(o, c[s.id]) {
          FilterIsSubsequence(c[s.id].refs, s.keepRef);
          StaysSingle(owners, o, c[s.id], Apply(c[s.id], claimed, s.shedLabels, s.keepRef));
        }
      } else {
        FreshIsSingle(owners, o, claimed.(uid := s.newUid));
      }
    }
  }

  lemma ClaimIsOwnWrite(owners: set<Owner>, o: Owner, c: Cluster, s: Step)
    requires Apart(owners) && o in owners && Inv(owners, c) && (s.ClaimStep? || s.RelabelStep?)
    requires s.id in c ==> c[s.id].uid != ""
    ensures OwnWrite(owners, o, c, Act(o, c, s), s.id)
  {
    if s.id in c && Claim(o, c[s.id]).Ok? {
      ClaimIntact(o, c[s.id]);
      StaysSingle(owners, o, c[s.id], Claim(o, c[s.id]).value);
      if s.RelabelStep? {
        RebuildRecognized(o, c[s.id], s.labels);
        StaysSingle(owners, o, c[s.id], ClaimWithLabels(o, c[s.id], s.labels).value);
      }
    }
  }

  /** Every object on the target is controlled by at most one owner, and no step
      touches an object that another owner, or nobody, controls. */
  lemma ActKeepsOwnership(owners: set<Owner>, o: Owner, c: Cluster, s: Step)
    requires Apart(owners) && o in owners && Inv(owners, c) && WellFormed(s)
    requires forall id :: id in c ==> c[id].uid != ""
    ensures OwnWrite(owners, o, c, Act(o, c, s), s.id)
    ensures Inv(owners, Act(o, c, s))
    ensures forall id :: id in Act(o, c, s) ==> Act(o, c, s)[id].uid != ""
  {
    match s
    case EnsureStep(_, _, _, _, _) => EnsureIsOwnWrite(owners, o, c, s);
    case ClaimStep(_) => ClaimIsOwnWrite(owners, o, c, s);
    case RelabelStep(_, _) => ClaimIsOwnWrite(owners, o, c, s);
    case SweepStep(_) =>
  }

  /** And an owner gets its way on what is its own or nobody's: it creates and applies
      what it desires under its labels, and what it sweeps is gone. */
  lemma OwnStepsWork(o: Owner, c: Cluster, s: Step)
    requires WellFormed(s) && |o.name| <= 63 && (s.id in c ==> Controls(o, c[s.id]))
    ensures s.EnsureStep? ==>
              s.id in Act(o, c, s) && Act(o, c, s)[s.id].spec == s.desired.spec
              && (forall key :: key in s.desired.labels && key !in OwnershipKeys() ==>
                    Lookup(Act(o, c, s)[s.id].labels, key) == s.desired.labels[key])
              && ControlledByLabels(o, Act(o, c, s)[s.id])
    ensures s.SweepStep? ==> s.id !in Act(o, c, s)
    ensures (s.ClaimStep? || s.RelabelStep?) && s.id in c ==>
              s.id in Act(o, c, s) && ControlledByLabels(o, Act(o, c, s)[s.id])
  {
    if s.EnsureStep? {
      ClaimIntact(o, s.desired);
    } else if s.id in c && !s.SweepStep? {
      ClaimIntact(o, c[s.id]);
    }
  }

  // ---- runs -----------------------------------------------------------------------------------------

  /** Everyone else on the cluster: creates, edits and deletes, but hands no
      object to an owner and gives it no second controller. */
  datatype Event = Write(owner: Owner, step: Step) | Others(next: Cluster)

  ghost predicate Enabled(owners: set<Owner>, c: Cluster, e: Event) {
    match e
    case Write(o, s) => o in owners && WellFormed(s)
    case Others(next) =>
      forall id :: id in next ==>
        && next[id].uid != "" && OneController(next[id].refs)
        && forall o :: o in owners && Controls(o, next[id]) ==> id in c && Controls(o, c[id])
  }

  function Next(c: Cluster, e: Event): Cluster {
    match e
    case Write(o, s) => Act(o, c, s)
    case Others(next) => next
  }

  ghost predicate IsRun(owners: set<Owner>, cs: seq<Cluster>, es: seq<Event>) {
    && |cs| == |es| + 1
    && Inv(owners, cs[0]) && (forall id :: id in cs[0] ==> cs[0][id].uid != "")
    && forall i {:trigger es[i]} :: 0 <= i < |es| ==> Enabled(owners, cs[i], es[i]) && cs[i + 1] == Next(cs[i], es[i])
  }

  lemma EventKeeps(owners: set<Owner>, c: Cluster, e: Event)
    requires Apart(owners) && Inv(owners, c) && (forall id :: id in c ==> c[id].uid != "") && Enabled(owners, c, e)
    ensures Inv(owners, Next(c, e))
    ensures forall id :: id in Next(c, e) ==> Next(c, e)[id].uid != ""
  {
    if e.Write? {
      ActKeepsOwnership(owners, e.owner, c, e.step);
    }
  }

  /** In every run of any set of owners each object is controlled by at most one. */
  lemma {:induction false} OwnershipInEveryRun(owners: set<Owner>, cs: seq<Cluster>, es: seq<Event>, n: nat)
    requires Apart(owners) && IsRun(owners, cs, es) && n <= |es|
    ensures Inv(owners, cs[n])
    ensures forall id :: id in cs[n] ==> cs[n][id].uid != ""
  {
    if n > 0 {
      OwnershipInEveryRun(owners, cs, es, n - 1);
      assert Enabled(owners, cs[n - 1], es[n - 1]) && cs[n] == Next(cs[n - 1], es[n - 1]);
      EventKeeps(owners, cs[n - 1], es[n - 1]);
    }
  }

  /** And in every run no owner's write reshapes or deletes what is not its own. */
  lemma ForeignObjectsUntouched(owners: set<Owner>, cs: seq<Cluster>, es: seq<Event>, n: nat, id: string)
    requires Apart(owners) && IsRun(owners, cs, es) && n < |es| && es[n].Write?
    requires id in cs[n] && !Controls(es[n].owner, cs[n][id])
    ensures id in cs[n + 1] && cs[n + 1][id] == cs[n][id]
  {
    OwnershipInEveryRun(owners, cs, es, n);
    assert cs[n + 1] == Next(cs[n], es[n]);
    ActKeepsOwnership(owners, es[n].owner, cs[n], es[n].step);
  }
}
