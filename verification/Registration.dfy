/** A target cluster's registration Secret: its scope keys and the pre-image of
    the hash a cluster is engaged under (internal/common/multicluster/provider.go). */
module Registration {
  import opened Wrappers
  import opened Text

  const NUL: char := '\0'

  const NAMESPACES_KEY := "namespaces"
  const ASSIGNED_KEY := "assignedNamespaces"

  // ---- scope values ------------------------------------------------------------------

  function TrimSpace(s: string): string { Trim(IsSpace, s) }

  predicate IsAlnum(c: char) { 'a' <= c <= 'z' || '0' <= c <= '9' }

  predicate IsDNS1123Label(s: string) {
    && 1 <= |s| <= 63 && IsAlnum(s[0]) && IsAlnum(s[|s| - 1])
    && forall i :: 0 <= i < |s| ==> IsAlnum(s[i]) || s[i] == '-'
  }

  /** A label as RFC 1123 has it: fewer than 64 lower-case letters, digits and dashes, and no
      dash at either end. */
  lemma LabelIff(s: string)
    ensures IsDNS1123Label(s)
            <==> 0 < |s| < 64 && s[0] != '-' && s[|s| - 1] != '-'
                 && forall c :: c in s ==> 'a' <= c <= 'z' || '0' <= c <= '9' || c == '-'
  {
    assert forall i :: 0 <= i < |s| ==> s[i] in s;
  }

  predicate Accepted(raw: string) {
    && TrimSpace(raw) != ""
    && forall i :: 0 <= i < |Split(raw, ',')| ==> IsDNS1123Label(TrimSpace(Split(raw, ',')[i]))
  }

  /** A value is taken whole or refused whole. */
  method ParseNamespaces(raw: string) returns (r: Option<seq<string>>)
    ensures r.Some? <==> Accepted(raw)
    ensures r.Some? ==> var entries := Split(raw, ',');
              |r.value| == |entries| && forall i :: 0 <= i < |entries| ==> r.value[i] == TrimSpace(entries[i])
  {
    if TrimSpace(raw) == "" {
      return None;
    }
    var entries := Split(raw, ',');
    var namespaces: seq<string> := [];
    for i := 0 to |entries|
      invariant |namespaces| == i
      invariant forall k :: 0 <= k < i ==> namespaces[k] == TrimSpace(entries[k]) && IsDNS1123Label(namespaces[k])
    {
      var namespace := TrimSpace(entries[i]);
      if !IsDNS1123Label(namespace) {
        return None;
      }
      namespaces := namespaces + [namespace];
    }
    return Some(namespaces);
  }

  lemma {:induction false} TrimsPadding(left: string, name: string, right: string)
    requires name != "" && !IsSpace(name[0]) && !IsSpace(name[|name| - 1])
    requires forall c :: c in left + right ==> IsSpace(c)
    ensures TrimSpace(left + name + right) == name
    decreases |left| + |right|
  {
    var s := left + name + right;
    if left != "" {
      assert left[0] in left + right && s[1..] == left[1..] + name + right;
      TrimsPadding(left[1..], name, right);
    } else {
      assert s == name + right && TrimLeft(IsSpace, s) == s;
      if right != "" {
        assert right[|right| - 1] in left + right && s[..|s| - 1] == left + name + right[..|right| - 1];
        TrimsPadding(left, name, right[..|right| - 1]);
        assert TrimLeft(IsSpace, s[..|s| - 1]) == s[..|s| - 1];
      }
    }
  }

  /** One entry of a scope value as someone may write it. */
  datatype Written = Written(left: string, name: string, right: string)
  {
    predicate Ok() { IsDNS1123Label(name) && forall c :: c in left + right ==> IsSpace(c) }

    function Text(): string { left + name + right }
  }

  function Texts(es: seq<Written>): (ts: seq<string>)
    ensures |ts| == |es| && forall i :: 0 <= i < |es| ==> ts[i] == es[i].Text()
  {
    seq(|es|, i requires 0 <= i < |es| => es[i].Text())
  }

  /** Any list of labels, padded with space at will and joined by commas, is accepted and
      read back as those labels in that order. */
  lemma ListReadsBack(es: seq<Written>)
    requires es != [] && forall i :: 0 <= i < |es| ==> es[i].Ok()
    ensures var raw := Join(Texts(es), ',');
            && Accepted(raw) && |Split(raw, ',')| == |es|
            && forall i :: 0 <= i < |es| ==> TrimSpace(Split(raw, ',')[i]) == es[i].name
  {
    var raw := Join(Texts(es), ',');
    forall i | 0 <= i < |es| ensures ',' !in Texts(es)[i] && TrimSpace(Texts(es)[i]) == es[i].name {
      var e := es[i];
      TrimsPadding(e.left, e.name, e.right);
      forall c | c in e.Text() ensures c != ',' {
        assert c in e.left + e.right || c in e.name;
      }
    }
    SplitOfJoin(Texts(es), ',');
    if TrimSpace(raw) == "" {
      TrimmedAway(raw);
      assert Texts(es)[0] == es[0].Text() && es[0].name[0] in es[0].Text();
      JoinHasFirst(Texts(es), ',', es[0].name[0]);
      assert false;
    }
  }

  lemma {:induction false} RightTrimmedAway(s: string)
    requires TrimRight(IsSpace, s) == ""
    ensures forall c :: c in s ==> IsSpace(c)
  {
    if s != "" {
      RightTrimmedAway(s[..|s| - 1]);
      assert s == s[..|s| - 1] + [s[|s| - 1]];
    }
  }

  lemma {:induction false} TrimmedAway(s: string)
    requires TrimSpace(s) == ""
    ensures forall c :: c in s ==> IsSpace(c)
  {
    if s != "" && IsSpace(s[0]) {
      TrimmedAway(s[1..]);
      assert s == [s[0]] + s[1..];
    } else {
      RightTrimmedAway(s);
    }
  }

  lemma JoinHasFirst(parts: seq<string>, sep: char, c: char)
    requires parts != [] && c in parts[0]
    ensures c in Join(parts, sep)
  {}

  predicate NulFree(s: string) { NUL !in s }

  lemma {:induction false} TrimLeftNul(s: string)
    requires NulFree(TrimLeft(IsSpace, s))
    ensures NulFree(s)
  {
    if s != [] && IsSpace(s[0]) {
      TrimLeftNul(s[1..]);
      assert s == [s[0]] + s[1..];
    }
  }

  lemma {:induction false} TrimRightNul(s: string)
    requires NulFree(TrimRight(IsSpace, s))
    ensures NulFree(s)
  {
    if s != [] && IsSpace(s[|s| - 1]) {
      TrimRightNul(s[..|s| - 1]);
      assert s == s[..|s| - 1] + [s[|s| - 1]];
    }
  }

  lemma {:induction false} JoinNulFree(parts: seq<string>, c: char)
    requires |parts| >= 1 && c != NUL && forall i :: 0 <= i < |parts| ==> NulFree(parts[i])
    ensures NulFree(Join(parts, c))
  {
    if |parts| > 1 {
      JoinNulFree(parts[1..], c);
    }
  }

  /** No accepted value holds a NUL: trimming takes none away and no label has one. */
  lemma AcceptedIsNulFree(raw: string)
    requires Accepted(raw)
    ensures NulFree(raw)
  {
    var entries := Split(raw, ',');
    forall i | 0 <= i < |entries| ensures NulFree(entries[i]) {
      assert IsDNS1123Label(TrimSpace(entries[i]));
      TrimRightNul(TrimLeft(IsSpace, entries[i]));
      TrimLeftNul(entries[i]);
    }
    JoinNulFree(entries, ',');
    JoinOfSplit(raw, ',');
  }

  // ---- namespaces under both keys ---------------------------------------------------------

  function FirstAt(xs: seq<string>, x: string): (i: nat)
    ensures i <= |xs| && (i < |xs| ==> xs[i] == x) && x !in xs[..i]
  {
    if xs == [] || xs[0] == x then 0
    else
      var i := 1 + FirstAt(xs[1..], x);
      assert xs[..i] == [xs[0]] + xs[1..][..i - 1];
      i
  }

  lemma {:induction false} FirstAtIs(xs: seq<string>, i: nat)
    requires i < |xs| && xs[i] !in xs[..i]
    ensures FirstAt(xs, xs[i]) == i
  {
    if i > 0 {
      assert xs[..i][0] == xs[0] && xs[..i] == [xs[0]] + xs[1..][..i - 1];
      FirstAtIs(xs[1..], i - 1);
    }
  }

  /** The namespaces listed under both keys, each once, in the order the assigned
      list first names them. */
  method InBoth(placed: seq<string>, assignedNs: seq<string>) returns (both: seq<string>)
    ensures forall x :: x in both <==> x in placed && x in assignedNs
    ensures forall i, j :: 0 <= i < j < |both| ==> FirstAt(assignedNs, both[i]) < FirstAt(assignedNs, both[j])
  {
    var inPlaced: set<string> := {};
    for i := 0 to |placed|
      invariant forall x :: x in inPlaced <==> x in placed[..i]
    {
      assert placed[..i + 1] == placed[..i] + [placed[i]];
      inPlaced := inPlaced + {placed[i]};
    }
    assert placed[..|placed|] == placed;
    both := [];
    for i := 0 to |assignedNs|
      invariant forall x :: x in both <==> x in placed && x in assignedNs[..i]
      invariant forall x :: x in inPlaced <==> x in placed && x !in both
      invariant forall k :: 0 <= k < |both| ==> FirstAt(assignedNs, both[k]) < i
      invariant forall k, m :: 0 <= k < m < |both| ==> FirstAt(assignedNs, both[k]) < FirstAt(assignedNs, both[m])
    {
      assert assignedNs[..i + 1] == assignedNs[..i] + [assignedNs[i]];
      if assignedNs[i] in inPlaced {
        FirstAtIs(assignedNs, i);
        both := both + [assignedNs[i]];
        inPlaced := inPlaced - {assignedNs[i]};
      }
    }
    assert assignedNs[..|assignedNs|] == assignedNs;
  }

  // ---- the engagement hash -------------------------------------------------------------------

  datatype ScopeKey = ScopeKey(name: string, raw: string, present: bool)

  /** What registrationHash writes: each present key under its name, every field
      behind a NUL. */
  function Preimage(kubeconfig: string, keys: seq<ScopeKey>): string {
    if keys == [] then kubeconfig
    else
      var last := keys[|keys| - 1];
      Preimage(kubeconfig, keys[..|keys| - 1]) + if last.present then [NUL] + last.name + [NUL] + last.raw else []
  }

  method RegistrationPreimage(kubeconfig: string, keys: seq<ScopeKey>) returns (h: string)
    ensures h == Preimage(kubeconfig, keys)
  {
    h := kubeconfig;
    for i := 0 to |keys|
      invariant h == Preimage(kubeconfig, keys[..i])
    {
      assert keys[..i + 1][..i] == keys[..i];
      if !keys[i].present {
        continue;
      }
      h := h + ([NUL] + keys[i].name + [NUL] + keys[i].raw);
    }
    assert keys[..|keys|] == keys;
  }

  /** The fields the pre-image stands for. */
  function Fields(kubeconfig: string, keys: seq<ScopeKey>): (f: seq<string>)
    ensures |f| >= 1
  {
    if keys == [] then [kubeconfig]
    else
      var last := keys[|keys| - 1];
      Fields(kubeconfig, keys[..|keys| - 1]) + if last.present then [last.name, last.raw] else []
  }

  lemma {:induction false} JoinAppend(xs: seq<string>, y: string, c: char)
    requires |xs| >= 1
    ensures Join(xs + [y], c) == Join(xs, c) + [c] + y
  {
    if |xs| > 1 {
      JoinAppend(xs[1..], y, c);
      assert (xs + [y])[1..] == xs[1..] + [y];
    } else {
      assert (xs + [y])[1..] == [y];
    }
  }

  ghost predicate FieldsNulFree(kubeconfig: string, keys: seq<ScopeKey>) {
    NulFree(kubeconfig) && forall i :: 0 <= i < |keys| && keys[i].present ==> NulFree(keys[i].name) && NulFree(keys[i].raw)
  }

  lemma JoinAppendTwo(f: seq<string>, name: string, raw: string)
    requires |f| >= 1
    ensures Join(f + [name, raw], NUL) == Join(f, NUL) + ([NUL] + name + [NUL] + raw)
  {
    calc {
      Join(f + [name, raw], NUL);
      { assert f + [name, raw] == (f + [name]) + [raw]; }
      Join((f + [name]) + [raw], NUL);
      { JoinAppend(f + [name], raw, NUL); }
      Join(f + [name], NUL) + [NUL] + raw;
      { JoinAppend(f, name, NUL); }
      Join(f, NUL) + [NUL] + name + [NUL] + raw;
      { Regroup(Join(f, NUL), [NUL], name); }
      Join(f, NUL) + ([NUL] + name) + [NUL] + raw;
      { Regroup(Join(f, NUL), [NUL] + name, [NUL]); }
      Join(f, NUL) + ([NUL] + name + [NUL]) + raw;
      { Regroup(Join(f, NUL), [NUL] + name + [NUL], raw); }
      Join(f, NUL) + ([NUL] + name + [NUL] + raw);
    }
  }

  lemma {:induction false} JoinOfFields(kubeconfig: string, keys: seq<ScopeKey>)
    ensures Join(Fields(kubeconfig, keys), NUL) == Preimage(kubeconfig, keys)
  {
    if keys != [] {
      var front, last := keys[..|keys| - 1], keys[|keys| - 1];
      JoinOfFields(kubeconfig, front);
      if last.present {
        JoinAppendTwo(Fields(kubeconfig, front), last.name, last.raw);
      } else {
        assert Fields(kubeconfig, keys) == Fields(kubeconfig, front);
      }
    }
  }

  lemma {:induction false} NulFreeFields(kubeconfig: string, keys: seq<ScopeKey>)
    requires FieldsNulFree(kubeconfig, keys)
    ensures forall i :: 0 <= i < |Fields(kubeconfig, keys)| ==> NulFree(Fields(kubeconfig, keys)[i])
  {
    if keys != [] {
      NulFreeFields(kubeconfig, keys[..|keys| - 1]);
    }
  }

  /** The decoder is the split at NUL. */
  lemma SplitOfPreimage(kubeconfig: string, keys: seq<ScopeKey>)
    requires FieldsNulFree(kubeconfig, keys)
    ensures Split(Preimage(kubeconfig, keys), NUL) == Fields(kubeconfig, keys)
  {
    JoinOfFields(kubeconfig, keys);
    NulFreeFields(kubeconfig, keys);
    SplitOfJoin(Fields(kubeconfig, keys), NUL);
  }

  /** A registration as the hash sees it: the kubeconfig, the namespaces value and,
      on a provider that lists kinds for it, the assignedNamespaces value. */
  datatype Scope = Scope(kubeconfig: string, placed: Option<string>, assignedNs: Option<string>)

  function HashedKeys(s: Scope, withAssigned: bool): seq<ScopeKey> {
    [Key(NAMESPACES_KEY, s.placed)] + if withAssigned then [Key(ASSIGNED_KEY, s.assignedNs)] else []
  }

  function Key(name: string, raw: Option<string>): ScopeKey {
    ScopeKey(name, if raw.Some? then raw.value else "", raw.Some?)
  }

  /** What Reconcile has checked when it hashes. */
  predicate Checked(s: Scope) {
    && NulFree(s.kubeconfig)
    && (s.placed.Some? ==> Accepted(s.placed.value))
    && (s.assignedNs.Some? ==> s.placed.Some? && Accepted(s.assignedNs.value))
  }

  /** One pre-image, one registration: the same kubeconfig, the same keys present, the
      same values under them. */
  lemma PreimageInjective(a: Scope, b: Scope, withAssigned: bool)
    requires Checked(a) && Checked(b)
    requires Preimage(a.kubeconfig, HashedKeys(a, withAssigned)) == Preimage(b.kubeconfig, HashedKeys(b, withAssigned))
    ensures a.kubeconfig == b.kubeconfig && a.placed == b.placed
    ensures withAssigned ==> a == b
  {
    FieldsOf(a, withAssigned);
    FieldsOf(b, withAssigned);
    var fa, fb := FieldList(a, withAssigned), FieldList(b, withAssigned);
    assert fa == fb;
    assert fa[0] == fb[0];
    assert |fa| > 2 ==> fa[2] == fb[2];
    assert |fa| > 4 ==> fa[4] == fb[4];
  }

  function FieldList(s: Scope, withAssigned: bool): seq<string> {
    [s.kubeconfig]
    + (if s.placed.Some? then [NAMESPACES_KEY, s.placed.value] else [])
    + (if withAssigned && s.assignedNs.Some? then [ASSIGNED_KEY, s.assignedNs.value] else [])
  }

  lemma FieldsOf(s: Scope, withAssigned: bool)
    requires Checked(s)
    ensures Split(Preimage(s.kubeconfig, HashedKeys(s, withAssigned)), NUL) == FieldList(s, withAssigned)
  {
    var keys := HashedKeys(s, withAssigned);
    if s.placed.Some? { AcceptedIsNulFree(s.placed.value); }
    if s.assignedNs.Some? { AcceptedIsNulFree(s.assignedNs.value); }
    SplitOfPreimage(s.kubeconfig, keys);
    var first := [Key(NAMESPACES_KEY, s.placed)];
    assert first[..0] == [] && Fields(s.kubeconfig, first[..0]) == [s.kubeconfig];
    assert Fields(s.kubeconfig, first) == [s.kubeconfig] + if s.placed.Some? then [NAMESPACES_KEY, s.placed.value] else [];
    if withAssigned {
      assert keys[..1] == first;
    } else {
      assert keys == first;
    }
    assert Fields(s.kubeconfig, keys) == FieldList(s, withAssigned);
  }

  /** The kubeconfig has to be free of NUL: any accepted namespaces value can be moved
      into it without changing a byte of the pre-image. */
  lemma NulKubeconfigCollides(kubeconfig: string, raw: string)
    ensures Preimage(kubeconfig, HashedKeys(Scope(kubeconfig, Some(raw), None), false))
         == Preimage(kubeconfig + ([NUL] + NAMESPACES_KEY + [NUL] + raw),
                     HashedKeys(Scope(kubeconfig + ([NUL] + NAMESPACES_KEY + [NUL] + raw), None, None), false))
  {
    var placed, none := [Key(NAMESPACES_KEY, Some(raw))], [Key(NAMESPACES_KEY, None)];
    assert placed[..0] == [] && none[..0] == [];
    assert HashedKeys(Scope(kubeconfig, Some(raw), None), false) == placed;
    assert HashedKeys(Scope(kubeconfig + ([NUL] + NAMESPACES_KEY + [NUL] + raw), None, None), false) == none;
  }
}
