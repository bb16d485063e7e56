/** The derivation as a whole (hack/derive-sizing-figures.py, derive): every rule on the
    classified rows, with the rows each of them needs. */
module Derivation {
  import opened Wrappers
  import opened Sizing

  // ---- rows --------------------------------------------------------------------------

  function MeasuredOf(rows: seq<Row>): seq<Measured> {
    if rows == [] then [] else MeasuredOf(rows[..|rows| - 1]) + [rows[|rows| - 1].m]
  }

  function Select(keep: Measured -> bool, ms: seq<Measured>): seq<Measured> {
    if ms == [] then []
    else
      var n := |ms| - 1;
      Select(keep, ms[..n]) + if keep(ms[n]) then [ms[n]] else []
  }

  lemma {:induction false} Selected(keep: Measured -> bool, ms: seq<Measured>, m: Measured)
    ensures m in Select(keep, ms) <==> m in ms && keep(m)
  {
    if ms != [] {
      var n := |ms| - 1;
      Selected(keep, ms[..n], m);
      assert ms == ms[..n] + [ms[n]];
    }
  }

  lemma {:induction false} MeasuredMembers(rows: seq<Row>, i: nat)
    requires i < |rows|
    ensures rows[i].m in MeasuredOf(rows)
  {
    if i < |rows| - 1 {
      MeasuredMembers(rows[..|rows| - 1], i);
    }
  }

  predicate OnNode(m: Measured) { Profiled(m) && m.job == ControlPlane }

  method ClassifyAll(rows: seq<Row>)
    requires forall i :: 0 <= i < |rows| ==> rows[i].p == 1 && rows[i].t == 1
    requires forall i, j :: 0 <= i < j < |rows| ==> rows[i] != rows[j]
    modifies rows
    ensures forall i :: 0 <= i < |rows| ==> rows[i].Classified()
  {
    for i := 0 to |rows|
      invariant forall k :: 0 <= k < i ==> rows[k].Classified()
      invariant forall k :: i <= k < |rows| ==> rows[k].p == 1 && rows[k].t == 1
    {
      rows[i].Classify();
    }
  }

  method Comprehension(rows: seq<Row>, keep: Measured -> bool) returns (ms: seq<Measured>)
    ensures ms == Select(keep, MeasuredOf(rows))
  {
    ms := [];
    for i := 0 to |rows|
      invariant ms == Select(keep, MeasuredOf(rows[..i]))
    {
      assert rows[..i + 1][..i] == rows[..i];
      var before := MeasuredOf(rows[..i]);
      assert (before + [rows[i].m])[..|before|] == before;
      if keep(rows[i].m) {
        ms := ms + [rows[i].m];
      }
    }
    assert rows[..|rows|] == rows;
  }

  /** The API load of the tempest legs (rule 5). */
  predicate UnderLoad(m: Measured) {
    m.job == Tempest && (IsSized(m) || (m.ownerKind == "OVNCentral" && (m.component == "nb" || m.component == "sb")))
  }

  predicate IsBacking(m: Measured) { ClassOf(m) == Backing }

  predicate IsProxy(m: Measured) { m.container == "federation-proxy" }

  /** Which rows, legs and owners each rule reads: rule 3 the formula rows whose memory is
      not fixed, rule 5 the load of the tempest leg, rule 6 the
      sized services of the other two, rule 7 the backing kinds and rule 9 the services of
      e2e-controlplane alone. No row counts for both CPU requests. */
  lemma RulesRead(m: Measured)
    ensures InFormula(m) <==> ClassOf(m) == Formula
                              && !(m.ownerKind == "Cinder" && m.component == "backup")
                              && !(m.ownerKind == "NeutronMetadataAgent" && m.component == "metadata-agent")
    ensures IsProxy(m) ==> ClassOf(m) == Sidecar
    ensures UnderLoad(m) <==> m.job == Tempest
                              && (IsSized(m) || (m.ownerKind == "OVNCentral" && m.component in {"nb", "sb"}))
    ensures Profiled(m) <==> m.job in {ControlPlane, ControlPlaneSSO} && IsSized(m)
                             && m.ownerKind != "OVNCentral" && m.ownerKind != "NeutronMetadataAgent"
    ensures OnNode(m) <==> Profiled(m) && m.job != ControlPlaneSSO
    ensures IsBacking(m) <==> m.job == ControlPlane && m.ownerKind in KINDS && m.container !in SIDECARS
    ensures !(UnderLoad(m) && Profiled(m)) && !(IsBacking(m) && IsSized(m))
  {
    ClassIff(m);
  }

  // ---- rules 7 and 8: figures over a floor ----------------------------------------------

  /** The least multiple of 5m and of 16Mi from the floors on that cover every row; a
      floor counts whether it is a multiple or not. */
  ghost predicate IsLeastFigure(rows: seq<Measured>, cpuFloor: int, memoryFloor: int, cpu: int, memory: int) {
    (forall m :: m in rows ==> m.cpuTarget <= cpu && m.memoryTarget <= memory)
    && cpuFloor <= cpu && (cpu == cpuFloor || (IsMultiple(cpu, 5) && exists m :: m in rows && cpu < m.cpuTarget + 5))
    && memoryFloor <= memory
    && (memory == memoryFloor || (IsMultiple(memory, 16) && exists m :: m in rows && memory < m.memoryTarget + 16))
  }

  method LargestTargets(rows: seq<Measured>) returns (cpu: nat, memory: nat)
    requires rows != []
    ensures forall m :: m in rows ==> m.cpuTarget <= cpu && m.memoryTarget <= memory
    ensures exists m :: m in rows && m.cpuTarget == cpu
    ensures exists m :: m in rows && m.memoryTarget == memory
  {
    cpu, memory := rows[0].cpuTarget, rows[0].memoryTarget;
    for i := 1 to |rows|
      invariant forall k :: 0 <= k < i ==> rows[k].cpuTarget <= cpu && rows[k].memoryTarget <= memory
      invariant exists m :: m in rows && m.cpuTarget == cpu
      invariant exists m :: m in rows && m.memoryTarget == memory
    {
      if cpu < rows[i].cpuTarget {
        cpu := rows[i].cpuTarget;
      }
      if memory < rows[i].memoryTarget {
        memory := rows[i].memoryTarget;
      }
    }
  }

  method LeastFigure(rows: seq<Measured>, cpuFloor: int, memoryFloor: int) returns (cpu: int, memory: int)
    requires rows != []
    ensures IsLeastFigure(rows, cpuFloor, memoryFloor, cpu, memory)
  {
    var c, m := LargestTargets(rows);
    RoundUpBounds(c as real, 5);
    RoundUpBounds(m as real, 16);
    cpu, memory := RoundUp(c as real, 5), RoundUp(m as real, 16);
    if cpu < cpuFloor {
      cpu := cpuFloor;
    }
    if memory < memoryFloor {
      memory := memoryFloor;
    }
  }

  // ---- rule 7: the main container of each backing workload --------------------------------

  datatype Workload = Workload(ownerKind: string, namespace: string, kind: string, name: string)

  function WorkloadOf(m: Measured): Workload { Workload(m.ownerKind, m.namespace, m.kind, m.workload) }

  predicate Larger(a: Measured, b: Measured) {
    a.memoryTarget > b.memoryTarget || (a.memoryTarget == b.memoryTarget && a.cpuTarget > b.cpuTarget)
  }

  type Mains = map<Workload, Measured>

  /** A row replaces the main row of its workload only if it is larger. */
  function MainRows(rows: seq<Measured>): Mains {
    if rows == [] then map[]
    else
      var m := rows[|rows| - 1];
      var before := MainRows(rows[..|rows| - 1]);
      if WorkloadOf(m) !in before || Larger(m, before[WorkloadOf(m)]) then before[WorkloadOf(m) := m] else before
  }

  method MainRowsOf(rows: seq<Measured>) returns (mains: Mains)
    ensures mains == MainRows(rows)
  {
    mains := map[];
    for i := 0 to |rows|
      invariant mains == MainRows(rows[..i])
    {
      assert rows[..i + 1][..i] == rows[..i];
      var wl := WorkloadOf(rows[i]);
      if wl !in mains || Larger(rows[i], mains[wl]) {
        mains := mains[wl := rows[i]];
      }
    }
    assert rows[..|rows|] == rows;
  }

  /** Every workload measured has a main row, one of its own and none larger: no row of it
      has a larger memory target, nor a larger CPU target at the same memory. */
  lemma {:induction false} MainIsLargest(rows: seq<Measured>, wl: Workload)
    ensures wl in MainRows(rows) <==> exists m :: m in rows && WorkloadOf(m) == wl
    ensures wl in MainRows(rows) ==>
              MainRows(rows)[wl] in rows && WorkloadOf(MainRows(rows)[wl]) == wl
              && forall m :: m in rows && WorkloadOf(m) == wl ==>
                   var main := MainRows(rows)[wl];
                   m.memoryTarget <= main.memoryTarget && (m.memoryTarget == main.memoryTarget ==> m.cpuTarget <= main.cpuTarget)
  {
    if rows != [] {
      var n := |rows| - 1;
      MainIsLargest(rows[..n], wl);
      assert rows == rows[..n] + [rows[n]];
    }
  }

  function WorkloadsOf(mains: Mains, kind: string): set<Workload> { set wl | wl in mains && wl.ownerKind == kind }

  /** The main rows of the kind, one per workload; the order is the only thing open. */
  ghost predicate AreMains(mains: Mains, kind: string, rows: seq<Measured>) {
    |rows| == |WorkloadsOf(mains, kind)|
    && forall m :: m in rows <==> exists wl :: wl in WorkloadsOf(mains, kind) && mains[wl] == m
  }

  method MainsOfKind(mains: Mains, kind: string) returns (rows: seq<Measured>)
    ensures AreMains(mains, kind, rows)
  {
    rows := [];
    var todo := WorkloadsOf(mains, kind);
    while todo != {}
      invariant todo <= WorkloadsOf(mains, kind) && |rows| + |todo| == |WorkloadsOf(mains, kind)|
      invariant forall m :: m in rows <==> exists wl :: wl in WorkloadsOf(mains, kind) - todo && mains[wl] == m
      decreases todo
    {
      var wl :| wl in todo;
      ghost var done := WorkloadsOf(mains, kind) - todo;
      rows := rows + [mains[wl]];
      todo := todo - {wl};
      assert WorkloadsOf(mains, kind) - todo == done + {wl};
    }
  }

  const KINDS := ["MariaDB", "Memcached", "RabbitmqCluster", "OpenBaoCluster"]
  const PROJECTED := ["MariaDB", "Memcached", "OpenBaoCluster"]

  /** The figures the backing service's own configuration depends on. */
  function MemoryFloor(kind: string): int {
    if kind == "Memcached" then 96 else if kind == "OpenBaoCluster" then 64 else 1024
  }

  datatype KindFigure = KindFigure(cpu: int, memory: int, mains: seq<Measured>)

  ghost predicate IsKindFigure(mains: Mains, kind: string, f: KindFigure) {
    AreMains(mains, kind, f.mains) && IsLeastFigure(f.mains, 10, MemoryFloor(kind), f.cpu, f.memory)
  }

  /** Some row of the kind was measured. */
  ghost predicate MeasuredKind(backing: seq<Measured>, kind: string) { exists m :: m in backing && m.ownerKind == kind }

  lemma NoMainsIff(backing: seq<Measured>, kind: string, rows: seq<Measured>)
    requires AreMains(MainRows(backing), kind, rows)
    ensures rows == [] <==> !MeasuredKind(backing, kind)
  {
    if rows != [] {
      assert rows[0] in rows;
      var wl :| wl in WorkloadsOf(MainRows(backing), kind) && MainRows(backing)[wl] == rows[0];
      MainIsLargest(backing, wl);
    }
    if m :| m in backing && m.ownerKind == kind {
      MainIsLargest(backing, WorkloadOf(m));
      assert MainRows(backing)[WorkloadOf(m)] in rows;
    }
  }

  /** Rule 7. It fails exactly when a kind was not measured. */
  method BackingFigures(backing: seq<Measured>) returns (r: Result<map<string, KindFigure>, Error>)
    ensures r.Err? <==> exists kind :: kind in KINDS && !MeasuredKind(backing, kind)
    ensures r.Ok? ==> forall kind :: kind in KINDS ==> kind in r.value && IsKindFigure(MainRows(backing), kind, r.value[kind])
  {
    var mains := MainRowsOf(backing);
    var figures: map<string, KindFigure> := map[];
    for i := 0 to |KINDS|
      invariant forall kind :: kind in KINDS[..i] ==> MeasuredKind(backing, kind)
      invariant forall kind :: kind in KINDS[..i] ==> kind in figures && IsKindFigure(mains, kind, figures[kind])
    {
      var kind := KINDS[i];
      assert kind in KINDS && KINDS[..i + 1] == KINDS[..i] + [kind];
      var rows := MainsOfKind(mains, kind);
      NoMainsIff(backing, kind, rows);
      if rows == [] {
        return Err(Incomplete("no row of a backing kind was measured in e2e-controlplane"));
      }
      var cpu, memory := LeastFigure(rows, 10, MemoryFloor(kind));
      figures := figures[kind := KindFigure(cpu, memory, rows)];
    }
    assert KINDS[..|KINDS|] == KINDS;
    return Ok(figures);
  }

  function BackedRows(f: KindFigure, rows: seq<Measured>): seq<Backed> {
    if rows == [] then []
    else
      var n := |rows| - 1;
      BackedRows(f, rows[..n]) + [Backed(rows[n], f.cpu, f.memory)]
  }

  /** The main rows of the projected kinds with their figures. */
  function ProjectedBacking(figures: map<string, KindFigure>, kinds: seq<string>): seq<Backed>
    requires forall kind :: kind in kinds ==> kind in figures
  {
    if kinds == [] then []
    else
      var n := |kinds| - 1;
      ProjectedBacking(figures, kinds[..n]) + BackedRows(figures[kinds[n]], figures[kinds[n]].mains)
  }

  lemma {:induction false} BackedMembers(f: KindFigure, rows: seq<Measured>, b: Backed)
    ensures b in BackedRows(f, rows) <==> b.m in rows && b.cpu == f.cpu && b.memory == f.memory
    ensures |BackedRows(f, rows)| == |rows|
  {
    if rows != [] {
      var n := |rows| - 1;
      BackedMembers(f, rows[..n], b);
      assert rows == rows[..n] + [rows[n]];
    }
  }

  /** What the projection takes of the backing services: every main row of a projected
      kind, each with the figures of its own kind, and no other. */
  lemma {:induction false} ProjectedRows(figures: map<string, KindFigure>, kinds: seq<string>, b: Backed)
    requires forall kind :: kind in kinds ==> kind in figures
    ensures b in ProjectedBacking(figures, kinds)
            <==> exists kind :: kind in kinds && b.m in figures[kind].mains
                                && b.cpu == figures[kind].cpu && b.memory == figures[kind].memory
  {
    if kinds != [] {
      var n := |kinds| - 1;
      ProjectedRows(figures, kinds[..n], b);
      BackedMembers(figures[kinds[n]], figures[kinds[n]].mains, b);
      assert kinds == kinds[..n] + [kinds[n]];
    }
  }

  // ---- the derivation ------------------------------------------------------------------------

  /** What rules 5 to 8 derive: the render-time request, the Minimal request before the
      budget, and the backing and sidecar figures. */
  datatype Others = Others(defaultCPU: int, start: int, backing: map<string, KindFigure>, sidecarCPU: int, sidecarMemory: int)

  datatype Derivation = Derivation(figures: Figures, others: Others, minimalCPU: int, node: Node, budget: Budget)

  predicate CoveredBy(f: Figures, m: Measured) {
    (InFormula(m) ==> m.memoryTarget <= Given(f.memory.base, f.memory.perProcess, m))
    && (IsGlance(m) ==> m.memoryTarget <= Given(f.memory.base, f.glancePerProcess, m))
  }

  lemma EveryRowCovered(rows: seq<Row>, f: Figures, i: nat)
    requires i < |rows|
    requires Covers(Select(InFormula, MeasuredOf(rows)), f.memory.base, f.memory.perProcess)
    requires Covers(Select(IsGlance, MeasuredOf(rows)), f.memory.base, f.glancePerProcess)
    ensures CoveredBy(f, rows[i].m)
  {
    MeasuredMembers(rows, i);
    Selected(InFormula, MeasuredOf(rows), rows[i].m);
    Selected(IsGlance, MeasuredOf(rows), rows[i].m);
  }

  /** What rules 3 and 4 need and have not. */
  ghost predicate LacksMemory(ms: seq<Measured>) {
    || (forall m, n :: m in Select(InFormula, ms) && n in Select(InFormula, ms) ==> Processes(m) == Processes(n))
    || Select(IsGlance, ms) == [] || (exists m :: m in Select(IsGlance, ms) && Processes(m) == 0)
  }

  /** What rules 5 to 8 need and have not. */
  ghost predicate LacksOthers(ms: seq<Measured>) {
    || Select(UnderLoad, ms) == [] || Select(Profiled, ms) == []
    || (exists kind :: kind in KINDS && !MeasuredKind(Select(IsBacking, ms), kind))
    || Select(IsProxy, ms) == []
  }

  /** The memory figures are the least that do their job. */
  ghost predicate AreLeast(ms: seq<Measured>, f: Figures) {
    && (exists largest :: IsLargest(Select(InFormula, ms), largest) && IsPerProcess(largest, f.memory.perProcess))
    && IsBase(Select(InFormula, ms), f.memory.perProcess, f.memory.base)
    && IsOwnFigure(Select(IsGlance, ms), f.memory.base, f.glancePerProcess)
  }

  method MemoryFigures(rows: seq<Row>) returns (r: Result<Figures, Error>)
    ensures r.Err? <==> LacksMemory(MeasuredOf(rows))
    ensures r.Ok? ==> forall i :: 0 <= i < |rows| ==> CoveredBy(r.value, rows[i].m)
    ensures r.Ok? ==> AreLeast(MeasuredOf(rows), r.value)
  {
    var formula := Comprehension(rows, InFormula);
    var shared := MemoryFormula(formula);
    if shared.Err? {
      return Err(shared.error);
    }
    var glance := Comprehension(rows, IsGlance);
    var own := GlanceFigure(glance, shared.value.base);
    if own.Err? {
      return Err(own.error);
    }
    var figures := Figures(shared.value, own.value);
    forall i | 0 <= i < |rows| ensures CoveredBy(figures, rows[i].m) {
      EveryRowCovered(rows, figures, i);
    }
    return Ok(figures);
  }

  ghost predicate AreOthers(ms: seq<Measured>, o: Others) {
    && IsMedianRequest(Select(UnderLoad, ms), 10, o.defaultCPU)
    && IsMedianRequest(Select(Profiled, ms), 5, o.start)
    && (forall kind :: kind in KINDS ==>
          kind in o.backing && IsKindFigure(MainRows(Select(IsBacking, ms)), kind, o.backing[kind]))
    && IsLeastFigure(Select(IsProxy, ms), 25, 256, o.sidecarCPU, o.sidecarMemory)
  }

  method OtherFigures(rows: seq<Row>) returns (r: Result<Others, Error>)
    ensures r.Err? <==> LacksOthers(MeasuredOf(rows))
    ensures r.Ok? ==> AreOthers(MeasuredOf(rows), r.value)
  {
    var load := Comprehension(rows, UnderLoad);
    var request := MedianCPU(load, 10, "no tempest row was measured for the render-time CPU request");
    if request.Err? {
      return Err(request.error);
    }
    var profiled := Comprehension(rows, Profiled);
    var start := MedianCPU(profiled, 5, "no e2e-controlplane row was measured for the Minimal CPU request");
    if start.Err? {
      return Err(start.error);
    }
    var backingRows := Comprehension(rows, IsBacking);
    var backing := BackingFigures(backingRows);
    if backing.Err? {
      return Err(backing.error);
    }
    var proxies := Comprehension(rows, IsProxy);
    if proxies == [] {
      return Err(Incomplete("no federation-proxy row was measured"));
    }
    var cpu, memory := LeastFigure(proxies, 25, 256);
    return Ok(Others(request.value, start.value, backing.value, cpu, memory));
  }

  /** What the budget of rule 9 says of the figure it chose. */
  ghost predicate Budgeted(n: Node, start: int, figure: int, b: Budget) {
    && 10 <= figure <= start && figure % 5 == 0
    && (figure < start ==> forall each :: figure + 5 <= each ==> ProjectedCPU(n, each) > BUDGET_CPU)
    && (b.OverCPU? ==> forall each :: 10 <= each ==> ProjectedCPU(n, each) > BUDGET_CPU)
    && (!b.OverCPU? ==> ProjectedCPU(n, figure) <= BUDGET_CPU)
    && (b.Fits? <==> ProjectedCPU(n, figure) <= BUDGET_CPU && ProjectedMemory(n) <= BUDGET_MEMORY)
  }

  method Fit(n: Node, start: int) returns (figure: int, b: Budget)
    requires 10 <= start && start % 5 == 0
    ensures Budgeted(n, start, figure, b)
  {
    figure, b := FitBudget(n, start);
    forall each | 10 <= each && b.OverCPU? ensures ProjectedCPU(n, each) > BUDGET_CPU {
      MoreCostsMore(n.services, 10, each);
    }
  }

  /** All nine rules, for any measured rows: it fails exactly when a rule lacks its
      rows; else the figures cover every non-fixed formula row and every Glance row,
      the requests and the backing and sidecar figures are the least that do, and the
      Minimal request is the largest that fits the projected node. */
  method Derive(rows: seq<Row>, cpu: int, memory: int) returns (r: Result<Derivation, Error>)
    requires forall i :: 0 <= i < |rows| ==> rows[i].p == 1 && rows[i].t == 1
    requires forall i, j :: 0 <= i < j < |rows| ==> rows[i] != rows[j]
    modifies rows
    ensures forall i :: 0 <= i < |rows| ==> rows[i].Classified()
    ensures r.Err? <==> LacksMemory(MeasuredOf(rows)) || LacksOthers(MeasuredOf(rows))
    ensures r.Ok? ==> forall i :: 0 <= i < |rows| ==> CoveredBy(r.value.figures, rows[i].m)
    ensures r.Ok? ==> AreLeast(MeasuredOf(rows), r.value.figures) && AreOthers(MeasuredOf(rows), r.value.others)
    ensures r.Ok? ==> r.value.node == Node(cpu, memory, Select(OnNode, MeasuredOf(rows)),
                                           ProjectedBacking(r.value.others.backing, PROJECTED), r.value.figures)
    ensures r.Ok? ==> Budgeted(r.value.node, r.value.others.start, r.value.minimalCPU, r.value.budget)
  {
    ClassifyAll(rows);
    var figures := MemoryFigures(rows);
    if figures.Err? {
      return Err(figures.error);
    }
    var others := OtherFigures(rows);
    if others.Err? {
      return Err(others.error);
    }
    var services := Comprehension(rows, OnNode);
    var node := Node(cpu, memory, services, ProjectedBacking(others.value.backing, PROJECTED), figures.value);
    MedianRequestOf5(Select(Profiled, MeasuredOf(rows)), others.value.start);
    var figure, b := Fit(node, others.value.start);
    return Ok(Derivation(figures.value, others.value, figure, node, b));
  }
}
