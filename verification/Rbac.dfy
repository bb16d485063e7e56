/** The RBAC usage audit (hack/audit-rbac-usage.py) and the coverage check of the
    webhook role (hack/gen-helm-rbac-rules.py). */
module Rbac {
  import opened Wrappers
  import opened Text

  /** A rule of a ClusterRole; an absent list is an empty one. */
  datatype Rule = Rule(groups: seq<string>, resources: seq<string>, verbs: seq<string>, names: seq<string>)

  datatype Triple = Triple(group: string, resource: string, verb: string)

  /** The used triples, each with the object name of its first event. */
  type Used = map<Triple, string>

  // ---- the matcher ---------------------------------------------------------------------

  function Subresource(resource: string): string {
    var i := IndexOf(resource, '/');
    if i < |resource| then resource[i + 1..] else ""
  }

  predicate ResourceMatches(pattern: string, resource: string) {
    pattern == "*" || pattern == resource
    || (Subresource(resource) != "" && pattern == "*/" + Subresource(resource))
  }

  predicate GroupMatches(pattern: string, group: string) { pattern == "*" || pattern == group }

  predicate VerbMatches(pattern: string, verb: string) { pattern == "*" || pattern == verb }

  predicate NameMatches(names: seq<string>, name: string) { names == [] || name in names }

  predicate RuleCovers(rule: Rule, t: Triple, name: string) {
    (exists g :: g in rule.groups && GroupMatches(g, t.group))
    && (exists r :: r in rule.resources && ResourceMatches(r, t.resource))
    && (exists v :: v in rule.verbs && VerbMatches(v, t.verb))
    && NameMatches(rule.names, name)
  }

  predicate Covered(rules: seq<Rule>, t: Triple, name: string) {
    exists rule :: rule in rules && RuleCovers(rule, t, name)
  }

  /** A wildcard for a subresource, "*" and a slash before it, matches that subresource of
      every kind; a pattern that starts with no wildcard matches itself alone; and the
      kind itself is matched by no pattern for its subresources. */
  lemma PatternsMatch(kind: string, sub: string, pattern: string)
    requires '/' !in kind && sub != ""
    ensures Subresource(kind + "/" + sub) == sub && ResourceMatches("*/" + sub, kind + "/" + sub)
    ensures ResourceMatches("*", pattern) && ResourceMatches(pattern, pattern)
    ensures pattern != "" && pattern[0] != '*' ==> (ResourceMatches(pattern, kind + "/" + sub) <==> pattern == kind + "/" + sub)
    ensures ResourceMatches(pattern, kind) <==> pattern == "*" || pattern == kind
    ensures ResourceMatches("*/" + pattern, kind + "/" + sub) <==> pattern == sub || "*/" + pattern == kind + "/" + sub
  {
    var r := kind + "/" + sub;
    assert r == kind + ['/'] + sub;
    IndexOfAt(kind, '/', sub);
    assert r[|kind| + 1..] == sub;
    IndexOfAbsent(kind, '/');
    assert ("*/" + pattern)[0] == '*' && ("*/" + sub)[0] == '*';
    assert ("*/" + pattern)[2..] == pattern && ("*/" + sub)[2..] == sub;
  }

  lemma IndexOfAbsent(s: string, c: char)
    requires c !in s
    ensures IndexOf(s, c) == |s|
  {}

  // ---- lists ---------------------------------------------------------------------------------

  function FlatMap<A, B>(f: A -> seq<B>, xs: seq<A>): seq<B> {
    if xs == [] then [] else FlatMap(f, xs[..|xs| - 1]) + f(xs[|xs| - 1])
  }

  lemma {:induction false} FlatMapMember<A, B>(f: A -> seq<B>, xs: seq<A>, y: B)
    ensures y in FlatMap(f, xs) <==> exists x :: x in xs && y in f(x)
  {
    if xs != [] {
      var n := |xs| - 1;
      FlatMapMember(f, xs[..n], y);
      assert xs == xs[..n] + [xs[n]];
    }
  }

  function Keep(p: string -> bool, xs: seq<string>): seq<string> {
    if xs == [] then []
    else
      var n := |xs| - 1;
      Keep(p, xs[..n]) + if p(xs[n]) then [xs[n]] else []
  }

  /** Python's list.remove: the first occurrence goes. */
  function RemoveFirst(xs: seq<string>, x: string): seq<string> {
    if xs == [] then [] else if xs[0] == x then xs[1..] else [xs[0]] + RemoveFirst(xs[1..], x)
  }

  lemma {:induction false} RemoveFirstMember(xs: seq<string>, x: string, y: string)
    ensures y in RemoveFirst(xs, x) <==> y in xs && (y != x || Count(xs, x) > 1)
    ensures Count(xs, x) > 0 <==> x in xs
  {
    if xs != [] {
      RemoveFirstMember(xs[1..], x, y);
      assert xs == [xs[0]] + xs[1..];
    }
  }

  lemma {:induction false} KeepMember(p: string -> bool, xs: seq<string>, x: string)
    ensures x in Keep(p, xs) <==> x in xs && p(x)
  {
    if xs != [] {
      var n := |xs| - 1;
      KeepMember(p, xs[..n], x);
      assert xs == xs[..n] + [xs[n]];
    }
  }

  lemma {:induction false} KeepCount(p: string -> bool, xs: seq<string>, x: string)
    ensures Count(Keep(p, xs), x) == if p(x) then Count(xs, x) else 0
  {
    if xs != [] {
      var n := |xs| - 1;
      KeepCount(p, xs[..n], x);
      assert xs == xs[..n] + [xs[n]];
      CountAppend(xs[..n], [xs[n]], x);
      CountOne(xs[n], x);
      if p(xs[n]) {
        CountAppend(Keep(p, xs[..n]), [xs[n]], x);
      } else {
        assert Keep(p, xs[..n]) + [] == Keep(p, xs[..n]);
      }
    }
  }

  lemma {:induction false} KeepAll(p: string -> bool, xs: seq<string>)
    requires forall x :: x in xs ==> p(x)
    ensures Keep(p, xs) == xs
  {
    if xs != [] {
      var n := |xs| - 1;
      KeepAll(p, xs[..n]);
      assert xs == xs[..n] + [xs[n]];
    }
  }

  // ---- the audit -------------------------------------------------------------------------------

  /** No event used the verb on what the pattern pair matches. */
  predicate Idle(used: Used, group: string, resource: string, verb: string) {
    !exists t :: t in used && t.verb == verb && GroupMatches(group, t.group) && ResourceMatches(resource, t.resource)
  }

  function Kind(resource: string): string {
    if |resource| >= 7 && resource[|resource| - 7..] == "/status" then resource[..|resource| - 7] else resource
  }

  predicate ListGranted(rules: seq<Rule>, group: string, resource: string) {
    Covered(rules, Triple(group, Kind(resource), "list"), "")
  }

  /** One finding of the report, in the order found: granted verbs no event used on a
      (group, resource) of a rule, or a get that list implies. */
  datatype Finding = Unused(group: string, resource: string, verbs: seq<string>) | Implied(group: string, resource: string)

  function IdleVerbs(used: Used, group: string, resource: string, verbs: seq<string>): seq<string> {
    Keep(v => Idle(used, group, resource, v), verbs)
  }

  predicate GetImplied(rules: seq<Rule>, used: Used, verbs: seq<string>, group: string, resource: string) {
    "get" in IdleVerbs(used, group, resource, verbs) && ListGranted(rules, group, resource)
  }

  function ReportedVerbs(rules: seq<Rule>, used: Used, verbs: seq<string>, group: string, resource: string): seq<string> {
    var idle := IdleVerbs(used, group, resource, verbs);
    if GetImplied(rules, used, verbs, group, resource) then RemoveFirst(idle, "get") else idle
  }

  function FindingsAt(rules: seq<Rule>, used: Used, verbs: seq<string>, group: string, resource: string): seq<Finding> {
    var reported := ReportedVerbs(rules, used, verbs, group, resource);
    (if GetImplied(rules, used, verbs, group, resource) then [Implied(group, resource)] else [])
    + (if reported == [] then [] else [Unused(group, resource, reported)])
  }

  function FindingsIn(rules: seq<Rule>, used: Used, verbs: seq<string>, group: string, resources: seq<string>): seq<Finding> {
    FlatMap(r => FindingsAt(rules, used, verbs, group, r), resources)
  }

  function FindingsFor(rules: seq<Rule>, used: Used, rule: Rule, groups: seq<string>): seq<Finding> {
    FlatMap(g => FindingsIn(rules, used, rule.verbs, g, rule.resources), groups)
  }

  function Findings(rules: seq<Rule>, used: Used, audited: seq<Rule>): seq<Finding> {
    FlatMap((rule: Rule) => if "*" in rule.verbs then [] else FindingsFor(rules, used, rule, rule.groups), audited)
  }

  /** The status of a kind is looked up under the kind, and nothing else is. */
  lemma KindOfStatus(kind: string)
    ensures Kind(kind + "/status") == kind
    ensures Kind(kind) == kind || kind == Kind(kind) + "/status"
  {
    assert (kind + "/status")[|kind|..] == "/status";
  }

  lemma ProbeCovers(used: Used, group: string, resource: string, verb: string)
    ensures Idle(used, group, resource, verb)
            <==> !exists t :: t in used && t.verb == verb && RuleCovers(Rule([group], [resource], [verb], []), t, "")
  {
    forall t | t in used && t.verb == verb
      ensures RuleCovers(Rule([group], [resource], [verb], []), t, "")
              <==> GroupMatches(group, t.group) && ResourceMatches(resource, t.resource)
    {
      var probe := Rule([group], [resource], [verb], []);
      assert group in probe.groups && resource in probe.resources && verb in probe.verbs;
    }
  }

  method AuditKind(rules: seq<Rule>, used: Used, verbs: seq<string>, group: string, resource: string)
    returns (findings: seq<Finding>)
    ensures findings == FindingsAt(rules, used, verbs, group, resource)
  {
    var idle := [];
    for i := 0 to |verbs|
      invariant idle == IdleVerbs(used, group, resource, verbs[..i])
    {
      assert verbs[..i + 1][..i] == verbs[..i];
      ProbeCovers(used, group, resource, verbs[i]);
      if !exists t :: t in used && t.verb == verbs[i] && RuleCovers(Rule([group], [resource], [verbs[i]], []), t, "") {
        idle := idle + [verbs[i]];
      }
    }
    assert verbs[..|verbs|] == verbs;
    findings := [];
    if "get" in idle && Covered(rules, Triple(group, Kind(resource), "list"), "") {
      idle := RemoveFirst(idle, "get");
      findings := findings + [Implied(group, resource)];
    }
    if idle != [] {
      findings := findings + [Unused(group, resource, idle)];
    }
  }

  method AuditGroup(rules: seq<Rule>, used: Used, rule: Rule, group: string) returns (findings: seq<Finding>)
    ensures findings == FindingsIn(rules, used, rule.verbs, group, rule.resources)
  {
    findings := [];
    for i := 0 to |rule.resources|
      invariant findings == FindingsIn(rules, used, rule.verbs, group, rule.resources[..i])
    {
      assert rule.resources[..i + 1][..i] == rule.resources[..i];
      var here := AuditKind(rules, used, rule.verbs, group, rule.resources[i]);
      findings := findings + here;
    }
    assert rule.resources[..|rule.resources|] == rule.resources;
  }

  lemma OneMoreGroup(rules: seq<Rule>, used: Used, rule: Rule, i: nat)
    requires i < |rule.groups|
    ensures FindingsFor(rules, used, rule, rule.groups[..i + 1])
         == FindingsFor(rules, used, rule, rule.groups[..i]) + FindingsIn(rules, used, rule.verbs, rule.groups[i], rule.resources)
  {
    assert rule.groups[..i + 1][..i] == rule.groups[..i];
  }

  method AuditRule(rules: seq<Rule>, used: Used, rule: Rule) returns (findings: seq<Finding>)
    ensures findings == FindingsFor(rules, used, rule, rule.groups)
  {
    findings := [];
    for i := 0 to |rule.groups|
      invariant findings == FindingsFor(rules, used, rule, rule.groups[..i])
    {
      OneMoreGroup(rules, used, rule, i);
      var here := AuditGroup(rules, used, rule, rule.groups[i]);
      findings := findings + here;
    }
    assert rule.groups[..|rule.groups|] == rule.groups;
  }

  /** The findings of one operator, and the used triples no rule covers. */
  method Diff(rules: seq<Rule>, used: Used) returns (notGranted: set<Triple>, findings: seq<Finding>)
    ensures notGranted == set t | t in used && !Covered(rules, t, used[t])
    ensures findings == Findings(rules, used, rules)
  {
    notGranted := set t | t in used && !Covered(rules, t, used[t]);
    findings := [];
    for i := 0 to |rules|
      invariant findings == Findings(rules, used, rules[..i])
    {
      assert rules[..i + 1][..i] == rules[..i];
      if "*" in rules[i].verbs {
        continue;
      }
      var here := AuditRule(rules, used, rules[i]);
      findings := findings + here;
    }
    assert rules[..|rules|] == rules;
  }

  // ---- acting on the report ----------------------------------------------------------------------

  /** The report names verb on (group, resource) as unused; it does not name the
      rule the row came from. */
  predicate Reported(findings: seq<Finding>, group: string, resource: string, verb: string) {
    exists f :: f in findings && f.Unused? && f.group == group && f.resource == resource && verb in f.verbs
  }

  lemma InFindingsFor(rules: seq<Rule>, used: Used, rule: Rule, f: Finding)
    ensures f in FindingsFor(rules, used, rule, rule.groups)
            <==> exists g, r :: g in rule.groups && r in rule.resources && f in FindingsAt(rules, used, rule.verbs, g, r)
  {
    FlatMapMember(g => FindingsIn(rules, used, rule.verbs, g, rule.resources), rule.groups, f);
    forall g | g in rule.groups
      ensures f in FindingsIn(rules, used, rule.verbs, g, rule.resources)
              <==> exists r :: r in rule.resources && f in FindingsAt(rules, used, rule.verbs, g, r)
    {
      FlatMapMember(r => FindingsAt(rules, used, rule.verbs, g, r), rule.resources, f);
    }
  }

  lemma InFindings(rules: seq<Rule>, used: Used, f: Finding)
    ensures f in Findings(rules, used, rules)
            <==> exists rule :: rule in rules && "*" !in rule.verbs && f in FindingsFor(rules, used, rule, rule.groups)
  {
    FlatMapMember((rule: Rule) => if "*" in rule.verbs then [] else FindingsFor(rules, used, rule, rule.groups), rules, f);
  }

  /** The rule's own row names the verb. */
  predicate Names(rules: seq<Rule>, used: Used, rule: Rule, group: string, resource: string, verb: string) {
    "*" !in rule.verbs && group in rule.groups && resource in rule.resources
    && verb in ReportedVerbs(rules, used, rule.verbs, group, resource)
  }

  lemma NamedIsReported(rules: seq<Rule>, used: Used, rule: Rule, group: string, resource: string, verb: string)
    requires rule in rules && Names(rules, used, rule, group, resource, verb)
    ensures Reported(Findings(rules, used, rules), group, resource, verb)
  {
    var f := Unused(group, resource, ReportedVerbs(rules, used, rule.verbs, group, resource));
    assert f in FindingsAt(rules, used, rule.verbs, group, resource);
    InFindingsFor(rules, used, rule, f);
    InFindings(rules, used, f);
  }

  lemma ReportedIsNamed(rules: seq<Rule>, used: Used, group: string, resource: string, verb: string) returns (rule: Rule)
    requires Reported(Findings(rules, used, rules), group, resource, verb)
    ensures rule in rules && Names(rules, used, rule, group, resource, verb)
  {
    var f :| f in Findings(rules, used, rules) && f.Unused? && f.group == group && f.resource == resource && verb in f.verbs;
    InFindings(rules, used, f);
    rule :| rule in rules && "*" !in rule.verbs && f in FindingsFor(rules, used, rule, rule.groups);
    InFindingsFor(rules, used, rule, f);
  }

  /** What the report says, both ways: a verb other than get is reported for a pair exactly
      when some rule without a verb wildcard grants it there and no event used it; and a
      get is noted as implied exactly when such a rule grants it, no event used it and
      list on the kind is granted. */
  lemma ReportsIff(rules: seq<Rule>, used: Used, g: string, r: string, v: string)
    requires v != "get"
    ensures Reported(Findings(rules, used, rules), g, r, v)
            <==> Idle(used, g, r, v) && exists rule :: rule in rules && Holds(rule, g, r) && v in rule.verbs
    ensures Implied(g, r) in Findings(rules, used, rules)
            <==> ListGranted(rules, g, r) && Idle(used, g, r, "get")
                 && exists rule :: rule in rules && Holds(rule, g, r) && "get" in rule.verbs
  {
    if Reported(Findings(rules, used, rules), g, r, v) {
      var rule := ReportedIsNamed(rules, used, g, r, v);
      NamedIsIdle(rules, used, rule, g, r, v);
      NamedIsOn(rules, used, rule, g, r, v);
    }
    forall rule | rule in rules && Holds(rule, g, r) && v in rule.verbs && Idle(used, g, r, v)
      ensures Reported(Findings(rules, used, rules), g, r, v)
    {
      KeepMember(x => Idle(used, g, r, x), rule.verbs, v);
      RemoveFirstMember(IdleVerbs(used, g, r, rule.verbs), "get", v);
      NamedIsReported(rules, used, rule, g, r, v);
    }
    InFindings(rules, used, Implied(g, r));
    forall rule | rule in rules && "*" !in rule.verbs
      ensures Implied(g, r) in FindingsFor(rules, used, rule, rule.groups)
              <==> Holds(rule, g, r) && "get" in rule.verbs && Idle(used, g, r, "get") && ListGranted(rules, g, r)
    {
      ImpliedBy(rules, used, rule, g, r);
      GetImpliedIff(rules, used, rule.verbs, g, r);
    }
  }

  lemma ImpliedAt(rules: seq<Rule>, used: Used, verbs: seq<string>, a: string, b: string, g: string, r: string)
    ensures Implied(g, r) in FindingsAt(rules, used, verbs, a, b) <==> a == g && b == r && GetImplied(rules, used, verbs, g, r)
  {}

  lemma GetImpliedIff(rules: seq<Rule>, used: Used, verbs: seq<string>, g: string, r: string)
    ensures GetImplied(rules, used, verbs, g, r) <==> "get" in verbs && Idle(used, g, r, "get") && ListGranted(rules, g, r)
  {
    KeepMember(x => Idle(used, g, r, x), verbs, "get");
  }

  lemma ImpliedBy(rules: seq<Rule>, used: Used, rule: Rule, g: string, r: string)
    requires "*" !in rule.verbs
    ensures Implied(g, r) in FindingsFor(rules, used, rule, rule.groups)
            <==> Holds(rule, g, r) && GetImplied(rules, used, rule.verbs, g, r)
  {
    var f := Implied(g, r);
    InFindingsFor(rules, used, rule, f);
    if f in FindingsFor(rules, used, rule, rule.groups) {
      var a, b :| a in rule.groups && b in rule.resources && f in FindingsAt(rules, used, rule.verbs, a, b);
      ImpliedAt(rules, used, rule.verbs, a, b, g, r);
    }
    ImpliedAt(rules, used, rule.verbs, g, r, g, r);
  }

  /** A verb to strike, on (group, resource). */
  type Strike = (string, string, string) -> bool

  function Atom(bad: Strike, rule: Rule, group: string, resource: string): Rule {
    Rule([group], [resource], Keep(v => !bad(group, resource, v), rule.verbs), rule.names)
  }

  function AtomsIn(bad: Strike, rule: Rule, group: string): seq<Rule> {
    FlatMap(r => [Atom(bad, rule, group, r)], rule.resources)
  }

  /** Striking a verb on one pair of a rule splits the rule by its pairs. */
  function Atoms(bad: Strike, rule: Rule): seq<Rule> {
    if "*" in rule.verbs then [rule] else FlatMap(g => AtomsIn(bad, rule, g), rule.groups)
  }

  function Strip(bad: Strike, rules: seq<Rule>): seq<Rule> { FlatMap(rule => Atoms(bad, rule), rules) }

  /** One round: audit, then remove every verb the report lists as unused. */
  function Prune(rules: seq<Rule>, used: Used): seq<Rule> {
    Strip((g, r, v) => Reported(Findings(rules, used, rules), g, r, v), rules)
  }

  lemma AtomIn(bad: Strike, rule: Rule, group: string, resource: string)
    requires "*" !in rule.verbs && group in rule.groups && resource in rule.resources
    ensures Atom(bad, rule, group, resource) in Atoms(bad, rule)
  {
    var a := Atom(bad, rule, group, resource);
    FlatMapMember(r => [Atom(bad, rule, group, r)], rule.resources, a);
    FlatMapMember(g => AtomsIn(bad, rule, g), rule.groups, a);
  }

  lemma InStrip(bad: Strike, rules: seq<Rule>, rule: Rule, a: Rule)
    requires rule in rules && a in Atoms(bad, rule)
    ensures a in Strip(bad, rules)
  {
    FlatMapMember(x => Atoms(bad, x), rules, a);
  }

  /** Where a rule of the stripped role comes from. */
  lemma FromStrip(bad: Strike, rules: seq<Rule>, a: Rule) returns (rule: Rule, group: string, resource: string)
    requires a in Strip(bad, rules)
    ensures rule in rules
    ensures if "*" in rule.verbs then a == rule
            else group in rule.groups && resource in rule.resources && a == Atom(bad, rule, group, resource)
  {
    FlatMapMember(x => Atoms(bad, x), rules, a);
    rule :| rule in rules && a in Atoms(bad, rule);
    group, resource := "", "";
    if "*" !in rule.verbs {
      FlatMapMember(g => AtomsIn(bad, rule, g), rule.groups, a);
      group :| group in rule.groups && a in AtomsIn(bad, rule, group);
      FlatMapMember(r => [Atom(bad, rule, group, r)], rule.resources, a);
      resource :| resource in rule.resources && a in [Atom(bad, rule, group, resource)];
    }
  }

  lemma AtomCovers(bad: Strike, rule: Rule, g: string, r: string, v: string, t: Triple, name: string)
    requires GroupMatches(g, t.group) && ResourceMatches(r, t.resource)
    requires v in rule.verbs && VerbMatches(v, t.verb) && !bad(g, r, v) && NameMatches(rule.names, name)
    ensures RuleCovers(Atom(bad, rule, g, r), t, name)
  {
    KeepMember(x => !bad(g, r, x), rule.verbs, v);
    var a := Atom(bad, rule, g, r);
    assert g in a.groups && r in a.resources && v in a.verbs;
  }

  /** A verb survives when no pair it was used through is struck. */
  lemma StripKeeps(bad: Strike, rules: seq<Rule>, t: Triple, name: string)
    requires Covered(rules, t, name)
    requires forall g, r :: GroupMatches(g, t.group) && ResourceMatches(r, t.resource) ==> !bad(g, r, t.verb)
    ensures Covered(Strip(bad, rules), t, name)
  {
    var rule :| rule in rules && RuleCovers(rule, t, name);
    if "*" in rule.verbs {
      InStrip(bad, rules, rule, rule);
    } else {
      var g :| g in rule.groups && GroupMatches(g, t.group);
      var r :| r in rule.resources && ResourceMatches(r, t.resource);
      var v :| v in rule.verbs && VerbMatches(v, t.verb);
      AtomCovers(bad, rule, g, r, v, t, name);
      AtomIn(bad, rule, g, r);
      InStrip(bad, rules, rule, Atom(bad, rule, g, r));
    }
  }

  /** Removing every verb the audit reports leaves every used triple that was
      covered covered, under any object name. */
  lemma PruneKeepsUsed(rules: seq<Rule>, used: Used, t: Triple, name: string)
    requires t in used && Covered(rules, t, name)
    ensures Covered(Prune(rules, used), t, name)
  {
    var bad: Strike := (g, r, v) => Reported(Findings(rules, used, rules), g, r, v);
    forall g, r | GroupMatches(g, t.group) && ResourceMatches(r, t.resource) ensures !bad(g, r, t.verb) {
      if bad(g, r, t.verb) {
        var rule := ReportedIsNamed(rules, used, g, r, t.verb);
        NamedIsIdle(rules, used, rule, g, r, t.verb);
      }
    }
    StripKeeps(bad, rules, t, name);
  }

  lemma NamedIsIdle(rules: seq<Rule>, used: Used, rule: Rule, g: string, r: string, v: string)
    requires Names(rules, used, rule, g, r, v)
    ensures Idle(used, g, r, v) && v in rule.verbs
  {
    KeepMember(x => Idle(used, g, r, x), rule.verbs, v);
    RemoveFirstMember(IdleVerbs(used, g, r, rule.verbs), "get", v);
  }

  /** And it grants nothing new. */
  lemma PruneGrantsNoMore(rules: seq<Rule>, used: Used, t: Triple, name: string)
    requires Covered(Prune(rules, used), t, name)
    ensures Covered(rules, t, name)
  {
    var bad: Strike := (g, r, v) => Reported(Findings(rules, used, rules), g, r, v);
    var a :| a in Strip(bad, rules) && RuleCovers(a, t, name);
    var rule, g, r := FromStrip(bad, rules, a);
    if "*" !in rule.verbs {
      var v :| v in a.verbs && VerbMatches(v, t.verb);
      KeepMember(x => !bad(g, r, x), rule.verbs, v);
    }
  }

  // ---- repeating the round ------------------------------------------------------------------------------

  /** A verb the report leaves on a pair is in use there, or is a get that list
      implies. */
  lemma LeftMeans(rules: seq<Rule>, used: Used, rule: Rule, g: string, r: string, v: string)
    requires "*" !in rule.verbs && g in rule.groups && r in rule.resources && v in rule.verbs
    requires !Names(rules, used, rule, g, r, v)
    ensures !Idle(used, g, r, v) || (v == "get" && ListGranted(rules, g, r) && Count(rule.verbs, "get") == 1)
  {
    KeepMember(x => Idle(used, g, r, x), rule.verbs, v);
    KeepCount(x => Idle(used, g, r, x), rule.verbs, "get");
    RemoveFirstMember(IdleVerbs(used, g, r, rule.verbs), "get", v);
  }

  /** A get that stands once on a pair with list granted is not reported. */
  lemma ImpliedStays(rules: seq<Rule>, used: Used, rule: Rule, g: string, r: string)
    requires Names(rules, used, rule, g, r, "get") && Count(rule.verbs, "get") <= 1
    ensures !ListGranted(rules, g, r)
  {
    NamedIsIdle(rules, used, rule, g, r, "get");
    KeepMember(x => Idle(used, g, r, x), rule.verbs, "get");
    KeepCount(x => Idle(used, g, r, x), rule.verbs, "get");
    RemoveFirstMember(IdleVerbs(used, g, r, rule.verbs), "get", "get");
  }

  predicate Atomic(rule: Rule) { "*" in rule.verbs || (|rule.groups| == 1 && |rule.resources| == 1) }

  /** What one round leaves: every rule is atomic, and every verb on it is in use or
      is a single get whose list was granted. */
  lemma PruneLeaves(rules: seq<Rule>, used: Used, a: Rule, v: string)
    requires a in Prune(rules, used) && "*" !in a.verbs
    ensures Atomic(a)
    ensures v in a.verbs ==> !Idle(used, a.groups[0], a.resources[0], v)
                             || (v == "get" && ListGranted(rules, a.groups[0], a.resources[0]) && Count(a.verbs, "get") == 1)
  {
    var bad: Strike := (g, r, x) => Reported(Findings(rules, used, rules), g, r, x);
    var rule, g, r := FromStrip(bad, rules, a);
    if v in a.verbs {
      KeepMember(x => !bad(g, r, x), rule.verbs, v);
      if Names(rules, used, rule, g, r, v) {
        NamedIsReported(rules, used, rule, g, r, v);
      }
      LeftMeans(rules, used, rule, g, r, v);
      KeepCount(x => !bad(g, r, x), rule.verbs, "get");
    }
  }

  /** What is in use on a pair is not reported there. */
  lemma UsedIsNotReported(rules: seq<Rule>, used: Used, g: string, r: string, v: string)
    requires !Idle(used, g, r, v)
    ensures !Reported(Findings(rules, used, rules), g, r, v)
  {
    if Reported(Findings(rules, used, rules), g, r, v) {
      var rule := ReportedIsNamed(rules, used, g, r, v);
      NamedIsIdle(rules, used, rule, g, r, v);
    }
  }

  /** A verb of a pair that is not reported still covers what it covered. */
  lemma PairStays(rules: seq<Rule>, used: Used, rule: Rule, g: string, r: string, v: string, t: Triple, name: string)
    requires rule in rules && "*" !in rule.verbs && g in rule.groups && r in rule.resources && v in rule.verbs
    requires !Reported(Findings(rules, used, rules), g, r, v)
    requires GroupMatches(g, t.group) && ResourceMatches(r, t.resource) && VerbMatches(v, t.verb) && NameMatches(rule.names, name)
    ensures Covered(Prune(rules, used), t, name)
  {
    var bad: Strike := (g, r, v) => Reported(Findings(rules, used, rules), g, r, v);
    AtomCovers(bad, rule, g, r, v, t, name);
    AtomIn(bad, rule, g, r);
    InStrip(bad, rules, rule, Atom(bad, rule, g, r));
  }

  lemma StarStays(rules: seq<Rule>, used: Used, rule: Rule, t: Triple, name: string)
    requires rule in rules && "*" in rule.verbs && RuleCovers(rule, t, name)
    ensures Covered(Prune(rules, used), t, name)
  {
    InStrip((g, r, v) => Reported(Findings(rules, used, rules), g, r, v), rules, rule, rule);
  }

  /** The rule grants list on the kind through the pair (pg, pr) and keeps it in the
      first round: its verbs are a wildcard, or the pair was listed. */
  predicate KeepsOn(used: Used, rule: Rule, pg: string, pr: string, g: string, r: string) {
    NameMatches(rule.names, "") && GroupMatches(pg, g) && ResourceMatches(pr, Kind(r))
    && ("*" in rule.verbs || ("list" in rule.verbs && !Idle(used, pg, pr, "list")))
  }

  predicate KeepsList(rules: seq<Rule>, used: Used, g: string, r: string) {
    exists rule, pg, pr :: rule in rules && pg in rule.groups && pr in rule.resources && KeepsOn(used, rule, pg, pr, g, r)
  }

  lemma ListAfterRound(rules: seq<Rule>, used: Used, g: string, r: string)
    ensures ListGranted(Prune(rules, used), g, r) ==> KeepsList(rules, used, g, r)
  {
    var bad: Strike := (g, r, v) => Reported(Findings(rules, used, rules), g, r, v);
    if ListGranted(Prune(rules, used), g, r) {
      var a :| a in Prune(rules, used) && RuleCovers(a, Triple(g, Kind(r), "list"), "");
      var rule, pg, pr := FromStrip(bad, rules, a);
      if "*" !in rule.verbs {
        var v :| v in a.verbs && VerbMatches(v, "list");
        KeepMember(x => !bad(pg, pr, x), rule.verbs, v);
        if Names(rules, used, rule, pg, pr, v) {
          NamedIsReported(rules, used, rule, pg, pr, v);
        }
        LeftMeans(rules, used, rule, pg, pr, v);
        assert KeepsOn(used, rule, pg, pr, g, r);
      } else {
        StarKeeps(rules, used, rule, g, r);
      }
    }
  }

  lemma StarKeeps(rules: seq<Rule>, used: Used, rule: Rule, g: string, r: string)
    requires rule in rules && "*" in rule.verbs && RuleCovers(rule, Triple(g, Kind(r), "list"), "")
    ensures KeepsList(rules, used, g, r)
  {
    var pg :| pg in rule.groups && GroupMatches(pg, g);
    var pr :| pr in rule.resources && ResourceMatches(pr, Kind(r));
    assert KeepsOn(used, rule, pg, pr, g, r);
  }

  lemma KeptListIsGranted(rules: seq<Rule>, used: Used, g: string, r: string)
    requires KeepsList(rules, used, g, r)
    ensures ListGranted(Prune(rules, used), g, r)
  {
    var t := Triple(g, Kind(r), "list");
    var rule, pg, pr :| rule in rules && pg in rule.groups && pr in rule.resources && KeepsOn(used, rule, pg, pr, g, r);
    if "*" in rule.verbs {
      assert VerbMatches("*", "list");
      StarStays(rules, used, rule, t, "");
    } else {
      UsedIsNotReported(rules, used, pg, pr, "list");
      PairStays(rules, used, rule, pg, pr, "list", t, "");
    }
  }

  lemma AtomKeepsList(rules: seq<Rule>, used: Used, a: Rule, g: string, r: string)
    requires a in Prune(rules, used) && "*" !in a.verbs && RuleCovers(a, Triple(g, Kind(r), "list"), "")
    ensures KeepsList([a], used, g, r)
  {
    var v :| v in a.verbs && VerbMatches(v, "list");
    PruneLeaves(rules, used, a, "list");
    assert a in [a] && KeepsOn(used, a, a.groups[0], a.resources[0], g, r);
  }

  /** The second round takes no list away. */
  lemma ListStays(rules: seq<Rule>, used: Used, once: seq<Rule>, twice: seq<Rule>, g: string, r: string)
    requires once == Prune(rules, used) && twice == Prune(once, used)
    requires ListGranted(once, g, r)
    ensures ListGranted(twice, g, r)
  {
    var a :| a in once && RuleCovers(a, Triple(g, Kind(r), "list"), "");
    if "*" in a.verbs {
      StarStays(once, used, a, Triple(g, Kind(r), "list"), "");
    } else {
      AtomKeepsList(rules, used, a, g, r);
      assert KeepsList(once, used, g, r);
      KeptListIsGranted(once, used, g, r);
    }
  }

  /** An idle verb one round leaves is a single get whose list was granted. */
  lemma IdleLeft(rules: seq<Rule>, used: Used, a: Rule, g: string, r: string, v: string)
    requires a in Prune(rules, used) && "*" !in a.verbs
    requires g in a.groups && r in a.resources && v in a.verbs && Idle(used, g, r, v)
    ensures v == "get" && ListGranted(rules, g, r) && Count(a.verbs, "get") == 1
  {
    PruneLeaves(rules, used, a, v);
    assert a.groups[0] == g && a.resources[0] == r;
  }

  lemma NamedIsOn(rules: seq<Rule>, used: Used, rule: Rule, g: string, r: string, v: string)
    requires Names(rules, used, rule, g, r, v)
    ensures "*" !in rule.verbs && g in rule.groups && r in rule.resources
  {}

  /** After two rounds the report has no unused verb. */
  lemma NothingLeft(rules: seq<Rule>, used: Used, once: seq<Rule>, twice: seq<Rule>, g: string, r: string, v: string)
    requires once == Prune(rules, used) && twice == Prune(once, used)
    ensures !Reported(Findings(twice, used, twice), g, r, v)
  {
    if Reported(Findings(twice, used, twice), g, r, v) {
      var a := ReportedIsNamed(twice, used, g, r, v);
      NamedIsOn(twice, used, a, g, r, v);
      NamedIsIdle(twice, used, a, g, r, v);
      IdleLeft(once, used, a, g, r, v);
      ListStays(rules, used, once, twice, g, r);
      ImpliedStays(twice, used, a, g, r);
    }
  }

  lemma {:induction false} StripNothing(bad: Strike, rules: seq<Rule>)
    requires forall g, r, v :: !bad(g, r, v)
    requires forall rule :: rule in rules ==> Atomic(rule)
    ensures Strip(bad, rules) == rules
  {
    if rules != [] {
      var n := |rules| - 1;
      StripNothing(bad, rules[..n]);
      AtomsOfAtom(bad, rules[n]);
      assert rules == rules[..n] + [rules[n]];
    }
  }

  lemma FlatMapOne<A, B>(f: A -> seq<B>, x: A)
    ensures FlatMap(f, [x]) == f(x)
  {
    assert [x][..0] == [];
    assert FlatMap(f, []) == [];
  }

  lemma AtomsOfAtom(bad: Strike, rule: Rule)
    requires (forall g, r, v :: !bad(g, r, v)) && Atomic(rule)
    ensures Atoms(bad, rule) == [rule]
  {
    if "*" !in rule.verbs {
      var g, r := rule.groups[0], rule.resources[0];
      KeepAll(v => !bad(g, r, v), rule.verbs);
      assert rule.groups == [g] && rule.resources == [r];
      assert Atom(bad, rule, g, r) == rule;
      FlatMapOne(x => [Atom(bad, rule, g, x)], r);
      FlatMapOne(x => AtomsIn(bad, rule, x), g);
    }
  }

  /** Audit-and-remove reaches its fixpoint in at most two rounds. */
  lemma TwoRoundsSuffice(rules: seq<Rule>, used: Used)
    ensures var twice := Prune(Prune(rules, used), used);
            Prune(twice, used) == twice
  {
    var once := Prune(rules, used);
    var twice := Prune(once, used);
    var bad: Strike := (g, r, v) => Reported(Findings(twice, used, twice), g, r, v);
    forall g, r, v ensures !bad(g, r, v) {
      NothingLeft(rules, used, once, twice, g, r, v);
    }
    forall rule | rule in twice ensures Atomic(rule) {
      if "*" !in rule.verbs {
        PruneLeaves(once, used, rule, "");
      }
    }
    StripNothing(bad, twice);
  }

  /** The rule grants verbs other than a wildcard on the pair. */
  predicate Holds(rule: Rule, g: string, r: string) { "*" !in rule.verbs && g in rule.groups && r in rule.resources }

  /** A list on the kind spares an unused get of the pair in the first round: it is
      granted, and no rule names the get of the pair twice. */
  predicate Spared(rules: seq<Rule>, g: string, r: string) {
    ListGranted(rules, g, r) && forall q :: q in rules && Holds(q, g, r) ==> Count(q.verbs, "get") <= 1
  }

  lemma SparedIff(rules: seq<Rule>, used: Used, rule: Rule, g: string, r: string)
    requires rule in rules && Holds(rule, g, r) && "get" in rule.verbs && Idle(used, g, r, "get")
    ensures !Reported(Findings(rules, used, rules), g, r, "get") <==> Spared(rules, g, r)
  {
    if Reported(Findings(rules, used, rules), g, r, "get") && Spared(rules, g, r) {
      var q := ReportedIsNamed(rules, used, g, r, "get");
      ImpliedStays(rules, used, q, g, r);
    }
    if !ListGranted(rules, g, r) {
      KeepMember(x => Idle(used, g, r, x), rule.verbs, "get");
      NamedIsReported(rules, used, rule, g, r, "get");
    }
    forall q | q in rules && Holds(q, g, r) && Count(q.verbs, "get") > 1
      ensures Reported(Findings(rules, used, rules), g, r, "get")
    {
      TwiceIsNamed(rules, used, q, g, r);
      NamedIsReported(rules, used, q, g, r, "get");
    }
  }

  lemma TwiceIsNamed(rules: seq<Rule>, used: Used, q: Rule, g: string, r: string)
    requires Holds(q, g, r) && Count(q.verbs, "get") > 1 && Idle(used, g, r, "get")
    ensures Names(rules, used, q, g, r, "get")
  {
    RemoveFirstMember(q.verbs, "get", "get");
    KeepMember(x => Idle(used, g, r, x), q.verbs, "get");
    KeepCount(x => Idle(used, g, r, x), q.verbs, "get");
    RemoveFirstMember(IdleVerbs(used, g, r, q.verbs), "get", "get");
  }

  /** The rule grants an unused get on the pair, which the first round spares. */
  predicate SparesGet(rules: seq<Rule>, used: Used, rule: Rule, g: string, r: string) {
    Holds(rule, g, r) && "get" in rule.verbs && Idle(used, g, r, "get") && Spared(rules, g, r)
  }

  /** Every unused get the first round spares is spared by a list that stays. */
  predicate OneRound(rules: seq<Rule>, used: Used) {
    forall rule, g, r :: rule in rules && g in rule.groups && r in rule.resources && SparesGet(rules, used, rule, g, r)
                         ==> KeepsList(rules, used, g, r)
  }

  lemma OneRoundLeavesNothing(rules: seq<Rule>, used: Used, once: seq<Rule>, g: string, r: string, v: string)
    requires OneRound(rules, used) && once == Prune(rules, used)
    ensures !Reported(Findings(once, used, once), g, r, v)
  {
    if Reported(Findings(once, used, once), g, r, v) {
      var a := ReportedIsNamed(once, used, g, r, v);
      NamedIsOn(once, used, a, g, r, v);
      NamedIsIdle(once, used, a, g, r, v);
      IdleLeft(rules, used, a, g, r, v);
      GetCameFrom(rules, used, a, g, r);
      KeptListIsGranted(rules, used, g, r);
      ImpliedStays(once, used, a, g, r);
    }
  }

  lemma GetCameFrom(rules: seq<Rule>, used: Used, a: Rule, g: string, r: string)
    requires a in Prune(rules, used) && "*" !in a.verbs && g in a.groups && r in a.resources && "get" in a.verbs
    requires OneRound(rules, used) && Idle(used, g, r, "get")
    ensures KeepsList(rules, used, g, r)
  {
    var bad: Strike := (g, r, v) => Reported(Findings(rules, used, rules), g, r, v);
    var rule, pg, pr := FromStrip(bad, rules, a);
    KeepMember(x => !bad(pg, pr, x), rule.verbs, "get");
    assert pg == g && pr == r;
    SparedIff(rules, used, rule, g, r);
    assert SparesGet(rules, used, rule, g, r);
  }

  lemma LostListIsReported(rules: seq<Rule>, used: Used, once: seq<Rule>, rule: Rule, g: string, r: string)
    requires once == Prune(rules, used)
    requires rule in rules && Holds(rule, g, r) && "get" in rule.verbs && Idle(used, g, r, "get")
    requires Spared(rules, g, r) && !KeepsList(rules, used, g, r)
    ensures Prune(once, used) != once
  {
    var bad: Strike := (g, r, v) => Reported(Findings(rules, used, rules), g, r, v);
    var a := Atom(bad, rule, g, r);
    SparedIff(rules, used, rule, g, r);
    KeepMember(x => !bad(g, r, x), rule.verbs, "get");
    KeepMember(x => !bad(g, r, x), rule.verbs, "*");
    AtomIn(bad, rule, g, r);
    InStrip(bad, rules, rule, a);
    ListAfterRound(rules, used, g, r);
    KeepMember(x => Idle(used, g, r, x), a.verbs, "get");
    assert Names(once, used, a, g, r, "get");
    NamedIsReported(once, used, a, g, r, "get");
    ReportedIsGone(once, used, a, g, r, "get");
  }

  lemma ReportedIsGone(rules: seq<Rule>, used: Used, a: Rule, g: string, r: string, v: string)
    requires Reported(Findings(rules, used, rules), g, r, v)
    requires "*" !in a.verbs && a.groups == [g] && a.resources == [r] && v in a.verbs
    ensures a !in Prune(rules, used)
  {
    var bad: Strike := (g, r, v) => Reported(Findings(rules, used, rules), g, r, v);
    if a in Prune(rules, used) {
      var rule, pg, pr := FromStrip(bad, rules, a);
      assert [pg][0] == g && [pr][0] == r;
      KeepMember(x => !bad(pg, pr, x), rule.verbs, v);
    }
  }

  /** One round is enough exactly when every unused get it spares is spared by a list
      that stays. */
  lemma OneRoundIff(rules: seq<Rule>, used: Used)
    ensures var once := Prune(rules, used);
            Prune(once, used) == once <==> OneRound(rules, used)
  {
    var once := Prune(rules, used);
    if OneRound(rules, used) {
      var bad: Strike := (g, r, v) => Reported(Findings(once, used, once), g, r, v);
      forall g, r, v ensures !bad(g, r, v) {
        OneRoundLeavesNothing(rules, used, once, g, r, v);
      }
      forall rule | rule in once ensures Atomic(rule) {
        if "*" !in rule.verbs {
          PruneLeaves(rules, used, rule, "");
        }
      }
      StripNothing(bad, once);
    } else {
      var rule, g, r :| rule in rules && g in rule.groups && r in rule.resources
                        && SparesGet(rules, used, rule, g, r) && !KeepsList(rules, used, g, r);
      LostListIsReported(rules, used, once, rule, g, r);
    }
  }

  const SECRETS := Rule([""], ["secrets"], ["get", "list"], [])

  lemma SecretsOnce(a: Rule, v: string)
    requires a in Prune([SECRETS], map[])
    ensures a.groups == [""] && a.resources == ["secrets"] && (v in a.verbs ==> v == "get")
  {
    var rules, used: Used := [SECRETS], map[];
    var bad: Strike := (g, r, x) => Reported(Findings(rules, used, rules), g, r, x);
    var rule, g, r := FromStrip(bad, rules, a);
    KeepMember(x => !bad(g, r, x), rule.verbs, v);
    KeepMember(x => Idle(used, "", "secrets", x), rule.verbs, "list");
    RemoveFirstMember(IdleVerbs(used, "", "secrets", rule.verbs), "get", "list");
    NamedIsReported(rules, used, SECRETS, "", "secrets", "list");
  }

  lemma SecretsGetSurvives()
    ensures Covered(Prune([SECRETS], map[]), Triple("", "secrets", "get"), "")
  {
    var rules, used: Used := [SECRETS], map[];
    var bad: Strike := (g, r, v) => Reported(Findings(rules, used, rules), g, r, v);
    if bad("", "secrets", "get") {
      var rule := ReportedIsNamed(rules, used, "", "secrets", "get");
      assert ["get", "list"][1..] == ["list"] && ["list"][1..] == [];
      ImpliedStays(rules, used, rule, "", "secrets");
      assert SECRETS in rules && RuleCovers(SECRETS, Triple("", "secrets", "list"), "") by {
        assert "" in SECRETS.groups && "secrets" in SECRETS.resources && "list" in SECRETS.verbs;
      }
      assert false;
    }
    AtomCovers(bad, SECRETS, "", "secrets", "get", Triple("", "secrets", "get"), "");
    AtomIn(bad, SECRETS, "", "secrets");
    InStrip(bad, rules, SECRETS, Atom(bad, SECRETS, "", "secrets"));
  }

  lemma OnlyGet(rule: Rule, t: Triple)
    requires (forall v :: v in rule.verbs ==> v == "get") && t.verb == "list"
    ensures !RuleCovers(rule, t, "")
  {}

  lemma SecretsNoList(t: Triple)
    requires t.verb == "list"
    ensures !Covered(Prune([SECRETS], map[]), t, "")
  {
    forall a | a in Prune([SECRETS], map[]) ensures !RuleCovers(a, t, "") {
      forall v | v in a.verbs ensures v == "get" {
        SecretsOnce(a, v);
      }
      OnlyGet(a, t);
    }
  }

  lemma SecretsListGone()
    ensures !ListGranted(Prune([SECRETS], map[]), "", "secrets")
  {
    SecretsNoList(Triple("", Kind("secrets"), "list"));
  }

  lemma SecretsTwice(once: seq<Rule>, a: Rule, v: string)
    requires once == Prune([SECRETS], map[]) && a in Prune(once, map[])
    ensures v !in a.verbs
  {
    var bad: Strike := (g, r, x) => Reported(Findings(once, map[], once), g, r, x);
    var rule, g, r := FromStrip(bad, once, a);
    KeepMember(x => !bad(g, r, x), rule.verbs, v);
    KeepMember(x => !bad(g, r, x), rule.verbs, "*");
    SecretsOnce(rule, "*");
    SecretsOnce(rule, v);
    if v in a.verbs {
      PruneLeaves(once, map[], a, v);
      SecretsListGone();
    }
  }

  /** One round does not always do: with nothing used, the first round removes the
      list that kept the get, the second removes the get. */
  lemma SecondRoundNeeded()
    ensures var once := Prune([SECRETS], map[]);
            Covered(once, Triple("", "secrets", "get"), "")
            && !Covered(Prune(once, map[]), Triple("", "secrets", "get"), "")
  {
    var once := Prune([SECRETS], map[]);
    SecretsGetSurvives();
    forall a | a in Prune(once, map[]) ensures !RuleCovers(a, Triple("", "secrets", "get"), "") {
      forall v ensures v !in a.verbs {
        SecretsTwice(once, a, v);
      }
    }
  }

  // ---- the coverage check of the webhook role -------------------------------------------------------------

  function VerbTriples(group: string, resource: string, verbs: seq<string>): seq<Triple> {
    FlatMap(v => [Triple(group, resource, v)], verbs)
  }

  function ResourceTriples(group: string, rule: Rule): seq<Triple> {
    FlatMap(r => VerbTriples(group, r, rule.verbs), rule.resources)
  }

  function RuleTriples(rule: Rule): seq<Triple> { FlatMap(g => ResourceTriples(g, rule), rule.groups) }

  /** Every triple the rules grant, in order. */
  function Grants(rules: seq<Rule>): seq<Triple> { FlatMap(rule => RuleTriples(rule), rules) }

  predicate Lists(rule: Rule, t: Triple) { t.group in rule.groups && t.resource in rule.resources && t.verb in rule.verbs }

  lemma GrantsLists(rules: seq<Rule>, t: Triple)
    ensures t in Grants(rules) <==> exists rule :: rule in rules && Lists(rule, t)
  {
    FlatMapMember(rule => RuleTriples(rule), rules, t);
    forall rule | rule in rules ensures t in RuleTriples(rule) <==> Lists(rule, t) {
      RuleLists(rule, t);
    }
  }

  lemma RuleLists(rule: Rule, t: Triple)
    ensures t in RuleTriples(rule) <==> Lists(rule, t)
  {
    FlatMapMember(g => ResourceTriples(g, rule), rule.groups, t);
    forall g | g in rule.groups
      ensures t in ResourceTriples(g, rule) <==> t.group == g && t.resource in rule.resources && t.verb in rule.verbs
    {
      FlatMapMember(r => VerbTriples(g, r, rule.verbs), rule.resources, t);
      forall r | r in rule.resources ensures t in VerbTriples(g, r, rule.verbs) <==> t == Triple(g, r, t.verb) && t.verb in rule.verbs {
        FlatMapMember(v => [Triple(g, r, v)], rule.verbs, t);
      }
    }
  }

  predicate GrantedBy(manager: seq<Rule>, t: Triple) {
    t in Grants(manager) || t.(verb := "*") in Grants(manager)
  }

  /** The first webhook triple the manager does not grant, if any. */
  method CheckCoverage(manager: seq<Rule>, webhook: seq<Rule>) returns (missing: Option<Triple>)
    ensures missing.None? <==> forall t :: t in Grants(webhook) ==> GrantedBy(manager, t)
    ensures missing.Some? ==> exists i :: 0 <= i < |Grants(webhook)| && Grants(webhook)[i] == missing.value
                                          && !GrantedBy(manager, missing.value)
                                          && forall k :: 0 <= k < i ==> GrantedBy(manager, Grants(webhook)[k])
  {
    var granted := set t | t in Grants(manager);
    var wanted := Grants(webhook);
    for i := 0 to |wanted|
      invariant forall k :: 0 <= k < i ==> GrantedBy(manager, wanted[k])
    {
      assert wanted[i] in wanted;
      if wanted[i] !in granted && wanted[i].(verb := "*") !in granted {
        return Some(wanted[i]);
      }
    }
    return None;
  }

  function Unnamed(rules: seq<Rule>): seq<Rule> { FlatMap((rule: Rule) => if rule.names == [] then [rule] else [], rules) }

  lemma GrantedCovers(manager: seq<Rule>, x: Triple, t: Triple, name: string)
    requires GrantedBy(Unnamed(manager), x)
    requires GroupMatches(x.group, t.group) && ResourceMatches(x.resource, t.resource) && VerbMatches(x.verb, t.verb)
    ensures Covered(manager, t, name)
  {
    GrantsLists(Unnamed(manager), x);
    GrantsLists(Unnamed(manager), x.(verb := "*"));
    var m :| m in Unnamed(manager) && (Lists(m, x) || Lists(m, x.(verb := "*")));
    FlatMapMember((q: Rule) => if q.names == [] then [q] else [], manager, m);
    assert RuleCovers(m, t, name);
  }

  /** The check is sound for the matcher: when it passes against the manager's rules
      without resourceNames, every request the webhook role covers, wildcards
      included, is covered by the manager's. */
  lemma CoverageIsSound(manager: seq<Rule>, webhook: seq<Rule>, t: Triple, name: string)
    requires forall x :: x in Grants(webhook) ==> GrantedBy(Unnamed(manager), x)
    requires Covered(webhook, t, name)
    ensures Covered(manager, t, name)
  {
    var rule :| rule in webhook && RuleCovers(rule, t, name);
    var g :| g in rule.groups && GroupMatches(g, t.group);
    var r :| r in rule.resources && ResourceMatches(r, t.resource);
    var v :| v in rule.verbs && VerbMatches(v, t.verb);
    GrantsLists(webhook, Triple(g, r, v));
    GrantedCovers(manager, Triple(g, r, v), t, name);
  }

  lemma {:induction false} AllUnnamed(manager: seq<Rule>)
    requires forall rule :: rule in manager ==> rule.names == []
    ensures Unnamed(manager) == manager
  {
    if manager != [] {
      var n := |manager| - 1;
      AllUnnamed(manager[..n]);
      assert manager == manager[..n] + [manager[n]];
    }
  }

  /** So with no resourceNames in the manager role, a passing check is enough. */
  lemma PassingCheckCovers(manager: seq<Rule>, webhook: seq<Rule>, t: Triple, name: string)
    requires forall x :: x in Grants(webhook) ==> GrantedBy(manager, x)
    requires forall rule :: rule in manager ==> rule.names == []
    requires Covered(webhook, t, name)
    ensures Covered(manager, t, name)
  {
    AllUnnamed(manager);
    CoverageIsSound(manager, webhook, t, name);
  }

  // ---- exactly when the webhook role is covered ------------------------------------------------------------

  function Longer(xs: seq<string>): nat {
    if xs == [] then 1
    else
      var n := |xs| - 1;
      if |xs[n]| >= Longer(xs[..n]) then |xs[n]| + 1 else Longer(xs[..n])
  }

  lemma {:induction false} LongerBounds(xs: seq<string>, x: string)
    requires x in xs
    ensures |x| < Longer(xs)
  {
    var n := |xs| - 1;
    assert xs == xs[..n] + [xs[n]];
    if x != xs[n] {
      LongerBounds(xs[..n], x);
    }
  }

  function StringsOf(rule: Rule): seq<string> { rule.groups + rule.resources + rule.verbs + rule.names }

  /** A name longer than every string in the rules. */
  function Fresh(rules: seq<Rule>): string { seq(Longer(FlatMap(rule => StringsOf(rule), rules)), i => 'x') }

  lemma FreshIsNew(rules: seq<Rule>, rule: Rule, x: string)
    requires rule in rules && x in StringsOf(rule)
    ensures |x| < |Fresh(rules)|
  {
    FlatMapMember(r => StringsOf(r), rules, x);
    LongerBounds(FlatMap(r => StringsOf(r), rules), x);
  }

  lemma FreshIsPlain(rules: seq<Rule>)
    ensures Fresh(rules) != "" && '*' !in Fresh(rules) && '/' !in Fresh(rules)
  {}

  /** A request is covered under every object name exactly when a rule without
      resourceNames covers it. */
  lemma EveryNameIff(manager: seq<Rule>, t: Triple)
    ensures (forall name :: Covered(manager, t, name))
            <==> exists rule :: rule in manager && rule.names == [] && RuleCovers(rule, t, "")
  {
    var name := Fresh(manager);
    if Covered(manager, t, name) {
      var rule :| rule in manager && RuleCovers(rule, t, name);
      if name in rule.names {
        FreshIsNew(manager, rule, name);
      }
    }
    forall any | exists rule :: rule in manager && rule.names == [] && RuleCovers(rule, t, "") ensures Covered(manager, t, any) {
      var rule :| rule in manager && rule.names == [] && RuleCovers(rule, t, "");
      assert RuleCovers(rule, t, any);
    }
  }

  /** What a client sends: an asterisk stands in no name. */
  predicate Real(t: Triple) { '*' !in t.group && '*' !in t.resource && '*' !in t.verb }

  predicate IsSubPattern(r: string) { |r| > 2 && r[..2] == "*/" && '*' !in r[2..] }

  /** A pattern some real request matches. */
  predicate Usable(x: Triple) {
    (x.group == "*" || '*' !in x.group) && (x.verb == "*" || '*' !in x.verb)
    && (x.resource == "*" || IsSubPattern(x.resource) || '*' !in x.resource)
  }

  predicate Matches(x: Triple, t: Triple) {
    GroupMatches(x.group, t.group) && ResourceMatches(x.resource, t.resource) && VerbMatches(x.verb, t.verb)
  }

  /** The request a pattern stands for, with a plain name in place of every asterisk. */
  function Instance(x: Triple, plain: string): Triple {
    Triple(if x.group == "*" then plain else x.group,
           if x.resource == "*" then plain else if IsSubPattern(x.resource) then plain + x.resource[1..] else x.resource,
           if x.verb == "*" then plain else x.verb)
  }

  lemma SubOf(base: string, sub: string)
    requires '/' !in base
    ensures Subresource(base + ['/'] + sub) == sub && (sub == "" ==> Subresource(base) == "")
  {
    IndexOfAt(base, '/', sub);
  }

  lemma SubPattern(r: string)
    requires IsSubPattern(r)
    ensures r == ['*'] + ['/'] + r[2..] && Subresource(r) == r[2..] && r[1..] == ['/'] + r[2..]
  {
    SubOf(['*'], r[2..]);
  }

  lemma InstanceMatches(x: Triple, plain: string)
    requires Usable(x) && plain != "" && '*' !in plain && '/' !in plain
    ensures Real(Instance(x, plain)) && Matches(x, Instance(x, plain))
  {
    if x.resource != "*" && IsSubPattern(x.resource) {
      SubPattern(x.resource);
      SubOf(plain, x.resource[2..]);
      assert plain + x.resource[1..] == plain + ['/'] + x.resource[2..];
    }
  }

  lemma ResourceOfInstance(pattern: string, r: string, plain: string)
    requires '/' !in plain && |pattern| < |plain|
    requires ResourceMatches(pattern, if r == "*" then plain else if IsSubPattern(r) then plain + r[1..] else r)
    ensures ResourceMatches(pattern, r)
  {
    SubOf(plain, "");
    if r != "*" && IsSubPattern(r) {
      SubPattern(r);
      SubOf(plain, r[2..]);
      assert plain + r[1..] == plain + ['/'] + r[2..];
      assert "*/" + r[2..] == r;
    }
  }

  /** A rule that covers the request a pattern stands for covers the pattern itself. */
  lemma InstanceCovered(manager: seq<Rule>, rule: Rule, x: Triple, name: string)
    requires rule in manager && RuleCovers(rule, Instance(x, Fresh(manager)), name)
    ensures RuleCovers(rule, x, name)
  {
    var plain := Fresh(manager);
    var t := Instance(x, plain);
    FreshIsPlain(manager);
    var g :| g in rule.groups && GroupMatches(g, t.group);
    var r :| r in rule.resources && ResourceMatches(r, t.resource);
    var v :| v in rule.verbs && VerbMatches(v, t.verb);
    FreshIsNew(manager, rule, g);
    FreshIsNew(manager, rule, r);
    FreshIsNew(manager, rule, v);
    ResourceOfInstance(r, x.resource, plain);
    assert GroupMatches(g, x.group) && VerbMatches(v, x.verb);
  }

  lemma ResourceMatchesOn(a: string, b: string, c: string)
    requires ResourceMatches(a, b) && ResourceMatches(b, c)
    ensures ResourceMatches(a, c)
  {
    SubOf(['*'], Subresource(c));
    assert "*/" + Subresource(c) == ['*'] + ['/'] + Subresource(c);
    assert Subresource("*") == "";
  }

  /** And a rule that covers a pattern covers everything that matches it. */
  lemma PatternCovers(rule: Rule, x: Triple, t: Triple, name: string)
    requires RuleCovers(rule, x, name) && Matches(x, t)
    ensures RuleCovers(rule, t, name)
  {
    var r :| r in rule.resources && ResourceMatches(r, x.resource);
    ResourceMatchesOn(r, x.resource, t.resource);
  }

  /** The manager's rules cover a listed webhook triple, read as a request, under the
      names the webhook rule allows. */
  predicate Needed(manager: seq<Rule>, rule: Rule, x: Triple) {
    if rule.names == [] then exists m :: m in manager && m.names == [] && RuleCovers(m, x, "")
    else forall name :: name in rule.names ==> Covered(manager, x, name)
  }

  lemma NeededIff(manager: seq<Rule>, rule: Rule, x: Triple)
    ensures Needed(manager, rule, x) <==> forall name :: NameMatches(rule.names, name) ==> Covered(manager, x, name)
  {
    EveryNameIff(manager, x);
  }

  ghost predicate RoleCovered(manager: seq<Rule>, webhook: seq<Rule>) {
    forall t, name :: Real(t) && Covered(webhook, t, name) ==> Covered(manager, t, name)
  }

  predicate AllNeeded(manager: seq<Rule>, webhook: seq<Rule>) {
    forall rule :: rule in webhook ==> forall x :: x in RuleTriples(rule) && Usable(x) ==> Needed(manager, rule, x)
  }

  lemma RoleCoveredIsNeeded(manager: seq<Rule>, webhook: seq<Rule>, rule: Rule, x: Triple)
    requires RoleCovered(manager, webhook) && rule in webhook && x in RuleTriples(rule) && Usable(x)
    ensures Needed(manager, rule, x)
  {
    var t := Instance(x, Fresh(manager));
    FreshIsPlain(manager);
    InstanceMatches(x, Fresh(manager));
    RuleLists(rule, x);
    forall name | NameMatches(rule.names, name) ensures Covered(manager, x, name) {
      assert RuleCovers(rule, t, name);
      assert Covered(webhook, t, name);
      var m :| m in manager && RuleCovers(m, t, name);
      InstanceCovered(manager, m, x, name);
    }
    NeededIff(manager, rule, x);
  }

  lemma SubAfterStar(r: string, t: string)
    requires ResourceMatches(r, t) && '*' !in t
    ensures r == "*" || IsSubPattern(r) || '*' !in r
  {
    if r != "*" && r != t {
      var i := IndexOf(t, '/');
      assert r == "*/" + t[i + 1..];
      assert r[2..] == t[i + 1..] && r[..2] == "*/";
    }
  }

  lemma NeededCovers(manager: seq<Rule>, webhook: seq<Rule>, t: Triple, name: string)
    requires AllNeeded(manager, webhook) && Real(t) && Covered(webhook, t, name)
    ensures Covered(manager, t, name)
  {
    var rule :| rule in webhook && RuleCovers(rule, t, name);
    var g :| g in rule.groups && GroupMatches(g, t.group);
    var r :| r in rule.resources && ResourceMatches(r, t.resource);
    var v :| v in rule.verbs && VerbMatches(v, t.verb);
    var x := Triple(g, r, v);
    RuleLists(rule, x);
    SubAfterStar(r, t.resource);
    assert Usable(x);
    NeededIff(manager, rule, x);
    var m :| m in manager && RuleCovers(m, x, name);
    PatternCovers(m, x, t, name);
  }

  /** Exactly when the manager covers every real request the webhook role covers,
      resourceNames and wildcards included: every listed webhook triple that some real
      request matches is covered itself, by a rule without resourceNames where the
      webhook rule has none. */
  lemma CoveredExactly(manager: seq<Rule>, webhook: seq<Rule>)
    ensures RoleCovered(manager, webhook) <==> AllNeeded(manager, webhook)
  {
    if RoleCovered(manager, webhook) {
      forall rule | rule in webhook
        ensures forall x :: x in RuleTriples(rule) && Usable(x) ==> Needed(manager, rule, x)
      {
        forall x | x in RuleTriples(rule) && Usable(x) ensures Needed(manager, rule, x) {
          RoleCoveredIsNeeded(manager, webhook, rule, x);
        }
      }
    }
    if AllNeeded(manager, webhook) {
      forall t, name | Real(t) && Covered(webhook, t, name) ensures Covered(manager, t, name) {
        NeededCovers(manager, webhook, t, name);
      }
    }
  }

  /** No wildcard but a verb's, and no resourceNames. */
  predicate Plainly(rules: seq<Rule>) {
    forall rule :: rule in rules ==>
      rule.names == [] && (forall g :: g in rule.groups ==> '*' !in g) && (forall r :: r in rule.resources ==> '*' !in r)
  }

  lemma PlainlyGranted(manager: seq<Rule>, rule: Rule, x: Triple)
    requires Plainly(manager)
    ensures Needed(manager, rule, x) <==> GrantedBy(manager, x)
  {
    GrantsLists(manager, x);
    GrantsLists(manager, x.(verb := "*"));
    forall m, name | m in manager ensures RuleCovers(m, x, name) <==> Lists(m, x) || Lists(m, x.(verb := "*")) {
      PlainRuleCovers(m, x, name);
    }
    if rule.names != [] {
      assert rule.names[0] in rule.names;
    }
  }

  lemma PlainPattern(pattern: string, resource: string)
    requires '*' !in pattern
    ensures ResourceMatches(pattern, resource) <==> pattern == resource
  {
    assert pattern != "" ==> pattern[0] in pattern;
    assert ("*/" + Subresource(resource))[0] == '*';
  }

  lemma PlainRuleCovers(m: Rule, x: Triple, name: string)
    requires m.names == [] && (forall g :: g in m.groups ==> '*' !in g) && (forall r :: r in m.resources ==> '*' !in r)
    ensures RuleCovers(m, x, name) <==> Lists(m, x) || Lists(m, x.(verb := "*"))
  {
    assert '*' in "*" by {
      assert "*"[0] == '*';
    }
    forall r | r in m.resources ensures ResourceMatches(r, x.resource) <==> r == x.resource {
      PlainPattern(r, x.resource);
    }
    assert forall g :: g in m.groups ==> (GroupMatches(g, x.group) <==> g == x.group);
    assert VerbMatches(x.verb, x.verb) && VerbMatches("*", x.verb);
  }

  /** And where the manager's rules are plain, as the markers write them, the check is
      exact: it passes precisely when every real request of the webhook role is covered. */
  lemma CheckIsExact(manager: seq<Rule>, webhook: seq<Rule>)
    requires Plainly(manager) && forall x :: x in Grants(webhook) ==> Usable(x)
    ensures (forall x :: x in Grants(webhook) ==> GrantedBy(manager, x)) <==> RoleCovered(manager, webhook)
  {
    CoveredExactly(manager, webhook);
    forall rule, x | rule in webhook && x in RuleTriples(rule)
      ensures x in Grants(webhook) && (Needed(manager, rule, x) <==> GrantedBy(manager, x))
    {
      FlatMapMember(q => RuleTriples(q), webhook, x);
      PlainlyGranted(manager, rule, x);
    }
    forall x | x in Grants(webhook) ensures exists rule :: rule in webhook && x in RuleTriples(rule) {
      FlatMapMember(q => RuleTriples(q), webhook, x);
    }
  }

  const NAMED_MANAGER := [Rule([""], ["secrets"], ["get"], ["one"])]
  const PLAIN_WEBHOOK := [Rule([""], ["secrets"], ["get"], [])]

  /** With resourceNames it is not: the check ignores them. */
  lemma NamesBreakTheCheck()
    ensures forall x :: x in Grants(PLAIN_WEBHOOK) ==> GrantedBy(NAMED_MANAGER, x)
    ensures Covered(PLAIN_WEBHOOK, Triple("", "secrets", "get"), "two")
    ensures !Covered(NAMED_MANAGER, Triple("", "secrets", "get"), "two")
  {
    forall x | x in Grants(PLAIN_WEBHOOK) ensures GrantedBy(NAMED_MANAGER, x) {
      GrantsLists(PLAIN_WEBHOOK, x);
      GrantsLists(NAMED_MANAGER, x);
      assert NAMED_MANAGER[0] in NAMED_MANAGER;
    }
    var rule := PLAIN_WEBHOOK[0];
    assert rule in PLAIN_WEBHOOK && "" in rule.groups && "secrets" in rule.resources && "get" in rule.verbs;
    assert RuleCovers(rule, Triple("", "secrets", "get"), "two");
  }
}
