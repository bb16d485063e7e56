/** The sizing derivation (hack/derive-sizing-figures.py): the shared memory formula,
    Glance's own figure, the Minimal CPU request and the node budget. Fractions are
    exact, as in the source. */
module Sizing {
  import opened Wrappers
  import opened Text

  // ---- measured rows ------------------------------------------------------------------

  datatype Job = ControlPlane | ControlPlaneSSO | Tempest

  datatype Measured = Measured(
    job: Job, namespace: string, kind: string, workload: string, ownerKind: string, component: string, container: string,
    replicas: Option<nat>, processes: Option<nat>, threads: Option<nat>,
    cpuTarget: nat, memoryTarget: nat,
    cpuRequest: Option<nat>, memoryRequest: Option<nat>, memoryLimit: Option<nat>)

  datatype Class = Sidecar | Glance | Formula | Backing | Ignored

  const FORMULA_OWNERS := {"Keystone", "Horizon", "Placement", "Barbican", "Neutron", "Cinder", "Nova", "NeutronMetadataAgent"}
  const FORMULA_OVN_COMPONENTS := {"northd", "sb-relay"}
  const SIDECARS := {"federation-proxy", "cache-maintenance"}
  const FIXED_MEMORY := {("Cinder", "backup"), ("NeutronMetadataAgent", "metadata-agent")}
  const NOT_PROFILED_OWNERS := {"NeutronMetadataAgent", "OVNCentral"}
  const BACKING := {"MariaDB", "Memcached", "RabbitmqCluster", "OpenBaoCluster"}
  const MEMORY_PER_EXTRA_THREAD := 32
  const BUDGET_CPU := 4000
  const BUDGET_MEMORY := 16384

  function WorkersByJob(job: Job): nat { if job == Tempest then 2 else 1 }

  function ClassOf(m: Measured): Class {
    if m.container in SIDECARS then Sidecar
    else if m.ownerKind == "Glance" then Glance
    else if m.ownerKind in FORMULA_OWNERS || (m.ownerKind == "OVNCentral" && m.component in FORMULA_OVN_COMPONENTS) then Formula
    else if m.ownerKind in BACKING && m.job == ControlPlane then Backing
    else Ignored
  }

  predicate IsSized(m: Measured) { ClassOf(m) == Formula || ClassOf(m) == Glance }

  function Threads(m: Measured): nat {
    if IsSized(m) && m.threads.Some? && m.threads.value != 0 then m.threads.value else 1
  }

  function Processes(m: Measured): nat {
    if !IsSized(m) then 1
    else if m.processes.Some? then m.processes.value
    else if ClassOf(m) == Glance || (m.ownerKind == "Nova" && (m.component == "scheduler" || m.component == "conductor"))
    then WorkersByJob(m.job)
    else 1
  }

  predicate FixedMemory(m: Measured) { (m.ownerKind, m.component) in FIXED_MEMORY }

  predicate InFormula(m: Measured) { ClassOf(m) == Formula && !FixedMemory(m) }

  predicate IsGlance(m: Measured) { ClassOf(m) == Glance }

  predicate Profiled(m: Measured) {
    m.job != Tempest && IsSized(m) && m.ownerKind !in NOT_PROFILED_OWNERS
  }

  function Pods(m: Measured): nat { if m.replicas.None? then 1 else m.replicas.value }

  /** What the operator's extra threads add to a container. */
  function Extra(m: Measured): int { Processes(m) * (Threads(m) - 1) * MEMORY_PER_EXTRA_THREAD }

  function Normalized(m: Measured): int { m.memoryTarget - Extra(m) }

  /** The memory the figures give a container. */
  function Given(base: int, perProcess: int, m: Measured): int {
    base + Processes(m) * (perProcess + (Threads(m) - 1) * MEMORY_PER_EXTRA_THREAD)
  }

  lemma GivenCovers(base: int, perProcess: int, m: Measured)
    ensures m.memoryTarget <= Given(base, perProcess, m) <==> Normalized(m) <= base + Processes(m) * perProcess
  {
    assert Processes(m) * (perProcess + (Threads(m) - 1) * MEMORY_PER_EXTRA_THREAD)
        == Processes(m) * perProcess + Processes(m) * (Threads(m) - 1) * MEMORY_PER_EXTRA_THREAD;
  }

  /** What puts a row in its class, whichever check comes first: only a sidecar container
      is taken out of another class. */
  lemma ClassIff(m: Measured)
    ensures ClassOf(m) == Sidecar <==> m.container in SIDECARS
    ensures ClassOf(m) == Glance <==> m.container !in SIDECARS && m.ownerKind == "Glance"
    ensures ClassOf(m) == Formula
            <==> m.container !in SIDECARS
                 && (m.ownerKind in FORMULA_OWNERS
                     || (m.ownerKind == "OVNCentral" && (m.component == "northd" || m.component == "sb-relay")))
    ensures ClassOf(m) == Backing <==> m.container !in SIDECARS && m.job == ControlPlane && m.ownerKind in BACKING
  {}

  /** A sized row runs the processes and threads measured. Where no process count was,
      only a tempest leg's Glance, Nova scheduler or conductor runs more than one, and a
      missing or zero thread count is one thread; any other row runs one of each. */
  lemma ProcessesIff(m: Measured)
    ensures IsSized(m) && m.processes.Some? ==> Processes(m) == m.processes.value
    ensures m.processes.None? ==>
              (Processes(m) != 1 <==> m.job == Tempest && IsSized(m)
                                      && (m.ownerKind == "Glance" || (m.ownerKind == "Nova" && m.component in {"scheduler", "conductor"})))
              && Processes(m) <= 2
    ensures !IsSized(m) ==> Processes(m) == 1 && Threads(m) == 1 && Extra(m) == 0
    ensures IsSized(m) && m.threads.Some? && m.threads.value > 0 ==> Threads(m) == m.threads.value
    ensures m.threads == None || m.threads == Some(0) ==> Threads(m) == 1 && Extra(m) == 0
  {
    ClassIff(m);
  }

  class Row {
    const m: Measured
    var cls: Class
    var p: nat
    var t: nat

    constructor (m: Measured)
      ensures this.m == m && cls == Ignored && p == 1 && t == 1
    {
      this.m := m;
      cls, p, t := Ignored, 1, 1;
    }

    ghost predicate Classified()
      reads this
    {
      cls == ClassOf(m) && p == Processes(m) && t == Threads(m)
    }

    method Classify()
      requires p == 1 && t == 1
      modifies this
      ensures Classified()
    {
      if m.container in SIDECARS {
        cls := Sidecar;
      } else if m.ownerKind == "Glance" {
        cls := Glance;
      } else if m.ownerKind in FORMULA_OWNERS || (m.ownerKind == "OVNCentral" && m.component in FORMULA_OVN_COMPONENTS) {
        cls := Formula;
      } else if m.ownerKind in BACKING && m.job == ControlPlane {
        cls := Backing;
      } else {
        cls := Ignored;
      }
      if cls != Formula && cls != Glance {
        return;
      }
      t := if m.threads.Some? && m.threads.value != 0 then m.threads.value else 1;
      if m.processes.Some? {
        p := m.processes.value;
      } else if cls == Glance || (m.ownerKind == "Nova" && (m.component == "scheduler" || m.component == "conductor")) {
        p := WorkersByJob(m.job);
      } else {
        p := 1;
      }
    }
  }

  // ---- rounding ---------------------------------------------------------------------------

  function RoundUp(x: real, step: int): int
    requires step > 0
  {
    -((-x / step as real).Floor) * step
  }

  function Times(k: int, step: int): int { k * step }

  ghost predicate IsMultiple(n: int, step: int) { exists k :: Times(k, step) == n }

  lemma RealTimes(k: int, step: int)
    ensures Times(k, step) as real == k as real * step as real
  {}

  lemma InOrderTimes(a: int, b: int, step: int)
    requires step > 0 && a <= b
    ensures Times(a, step) <= Times(b, step)
  {
    assert (b - a) * step >= 0;
  }

  lemma SmallerFactor(a: int, b: int, step: int)
    requires step > 0 && Times(a - 1, step) < Times(b, step)
    ensures Times(a, step) <= Times(b, step)
  {
    if a <= b {
      InOrderTimes(a, b, step);
    } else {
      InOrderTimes(b, a - 1, step);
    }
  }

  function Product(a: real, b: real): real { a * b }

  lemma PositiveProduct(a: real, b: real)
    requires a >= 0.0 && b > 0.0
    ensures Product(a, b) >= 0.0 && (a > 0.0 ==> Product(a, b) > 0.0)
  {}

  lemma Difference(a: real, b: real, s: real)
    ensures Product(a - b, s) == Product(a, s) - Product(b, s)
  {}

  lemma Scaled(f: real, q: real, s: real)
    requires s > 0.0 && f <= q < f + 1.0
    ensures Product(f, s) <= Product(q, s) < Product(f, s) + s
  {
    PositiveProduct(q - f, s);
    Difference(q, f, s);
    PositiveProduct(f + 1.0 - q, s);
    Difference(f + 1.0, q, s);
    Difference(f + 1.0, f, s);
  }

  lemma DivideTimes(x: real, s: real)
    requires s > 0.0
    ensures (x / s) * s == x
  {}

  lemma Negated(f: real, s: real)
    ensures -f * s == -(f * s)
  {}

  lemma CeilingBounds(x: real, s: real, q: real, f: real)
    requires s > 0.0 && q == -x / s && f <= q < f + 1.0
    ensures x <= -Product(f, s) < x + s
  {
    DivideTimes(-x, s);
    assert Product(q, s) == -x;
    Scaled(f, q, s);
  }

  lemma RoundUpBounds(x: real, step: int)
    requires step > 0
    ensures IsMultiple(RoundUp(x, step), step)
    ensures x <= RoundUp(x, step) as real < x + step as real
  {
    var q := -x / step as real;
    var s, f := step as real, q.Floor as real;
    assert RoundUp(x, step) as real == -Product(f, s) by {
      assert Times(-q.Floor, step) == RoundUp(x, step);
      RealTimes(-q.Floor, step);
      Negated(f, s);
    }
    CeilingBounds(x, s, q, f);
    assert Times(-q.Floor, step) == RoundUp(x, step);
  }

  /** RoundUp gives the least multiple of step that is at least x. */
  lemma RoundUpIsLeast(x: real, step: int, n: int)
    requires step > 0
    ensures IsMultiple(RoundUp(x, step), step) && x <= RoundUp(x, step) as real
    ensures IsMultiple(n, step) && x <= n as real ==> RoundUp(x, step) <= n
  {
    RoundUpBounds(x, step);
    if IsMultiple(n, step) && x <= n as real {
      var a :| Times(a, step) == RoundUp(x, step);
      var b :| Times(b, step) == n;
      assert RoundUp(x, step) - step < n;
      assert Times(a - 1, step) == Times(a, step) - step;
      SmallerFactor(a, b, step);
    }
  }

  // ---- rule 3: the shared memory formula ---------------------------------------------------

  type Largest = map<nat, int>

  /** The largest T measured at each process count. */
  ghost predicate IsLargest(rows: seq<Measured>, largest: Largest) {
    (forall m :: m in rows ==> Processes(m) in largest && Normalized(m) <= largest[Processes(m)])
    && (forall p :: p in largest ==> exists m :: m in rows && Processes(m) == p && Normalized(m) == largest[p])
  }

  method LargestByCount(rows: seq<Measured>) returns (largest: Largest)
    ensures IsLargest(rows, largest)
  {
    largest := map[];
    for i := 0 to |rows|
      invariant IsLargest(rows[..i], largest)
    {
      var m := rows[i];
      assert rows[..i + 1] == rows[..i] + [m];
      var p := Processes(m);
      if p !in largest || largest[p] < Normalized(m) {
        ghost var before := largest;
        largest := largest[p := Normalized(m)];
        forall q | q in largest ensures exists n :: n in rows[..i + 1] && Processes(n) == q && Normalized(n) == largest[q] {
          if q != p {
            assert q in before;
          } else {
            assert m in rows[..i + 1];
          }
        }
      }
    }
    assert rows[..|rows|] == rows;
  }

  /** No two process counts grow faster than perProcess between them. */
  predicate SlopesWithin(largest: Largest, perProcess: int) {
    forall p, q :: p in largest && q in largest && p < q ==> largest[q] - largest[p] <= perProcess * (q - p)
  }

  function SlopeOf(largest: Largest, p: nat, q: nat): real {
    if p in largest && q in largest && p < q
    then (largest[q] - largest[p]) as real / (q - p) as real
    else 0.0
  }

  lemma ScaledOrder(a: real, b: real, s: real)
    requires s > 0.0
    ensures a <= b <==> Product(a, s) <= Product(b, s)
  {
    if a <= b {
      PositiveProduct(b - a, s);
    } else {
      PositiveProduct(a - b, s);
    }
    Difference(b, a, s);
    Difference(a, b, s);
  }

  lemma SlopeBound(largest: Largest, p: nat, q: nat, x: int)
    requires p in largest && q in largest && p < q
    ensures SlopeOf(largest, p, q) <= x as real <==> largest[q] - largest[p] <= x * (q - p)
  {
    var rise, run := largest[q] - largest[p], q - p;
    DivideTimes(rise as real, run as real);
    ScaledOrder(SlopeOf(largest, p, q), x as real, run as real);
    RealTimes(x, run);
  }

  predicate InOrder(counts: seq<nat>) { forall i, j :: 0 <= i < j < |counts| ==> counts[i] < counts[j] }

  /** The process counts in increasing order, as sorted lists a dictionary's keys. */
  ghost predicate AreCounts(counts: seq<nat>, largest: Largest) {
    InOrder(counts) && forall p :: p in counts <==> p in largest
  }

  method CountsInOrder(largest: Largest) returns (counts: seq<nat>)
    ensures AreCounts(counts, largest)
  {
    counts := [];
    var todo := largest.Keys;
    while todo != {}
      invariant todo <= largest.Keys && InOrder(counts)
      invariant forall p :: p in counts <==> p in largest.Keys - todo
      decreases todo
    {
      var p :| p in todo;
      counts := InsertCount(p, counts);
      todo := todo - {p};
    }
  }

  function InsertCount(p: nat, counts: seq<nat>): (r: seq<nat>)
    requires InOrder(counts) && p !in counts
    ensures InOrder(r) && forall q :: q in r <==> q == p || q in counts
  {
    if counts == [] || p < counts[0] then [p] + counts
    else
      var rest := InsertCount(p, counts[1..]);
      assert forall q :: q in rest ==> q == p || q in counts[1..];
      assert forall i :: 0 <= i < |rest| ==> rest[i] in rest;
      [counts[0]] + rest
  }

  ghost predicate Attained(f: (nat, nat) -> real, counts: seq<nat>, x: real) {
    exists i, j :: 0 <= i < j < |counts| && f(counts[i], counts[j]) == x
  }

  ghost predicate BoundsFrom(f: (nat, nat) -> real, counts: seq<nat>, i: nat, x: real)
    requires i < |counts|
  {
    forall j :: i < j < |counts| ==> f(counts[i], counts[j]) <= x
  }

  lemma BoundsGrow(f: (nat, nat) -> real, counts: seq<nat>, i: nat, x: real, y: real)
    requires i < |counts| && BoundsFrom(f, counts, i, x) && x <= y
    ensures BoundsFrom(f, counts, i, y)
  {}

  method GreatestFrom(f: (nat, nat) -> real, counts: seq<nat>, i: nat, least: real) returns (x: real)
    requires i < |counts| && Attained(f, counts, least)
    ensures least <= x && Attained(f, counts, x) && BoundsFrom(f, counts, i, x)
  {
    x := least;
    for j := i + 1 to |counts|
      invariant least <= x && Attained(f, counts, x)
      invariant forall k :: i < k < j ==> f(counts[i], counts[k]) <= x
    {
      if x < f(counts[i], counts[j]) {
        x := f(counts[i], counts[j]);
      }
    }
  }

  /** The greatest value over every pair of counts, the earlier one first. */
  method Greatest(f: (nat, nat) -> real, counts: seq<nat>) returns (x: real)
    requires |counts| >= 2
    ensures Attained(f, counts, x) && forall i :: 0 <= i < |counts| ==> BoundsFrom(f, counts, i, x)
  {
    x := f(counts[0], counts[1]);
    for i := 0 to |counts|
      invariant Attained(f, counts, x)
      invariant forall k :: 0 <= k < i ==> BoundsFrom(f, counts, k, x)
    {
      ghost var before := x;
      x := GreatestFrom(f, counts, i, x);
      forall k | 0 <= k < i ensures BoundsFrom(f, counts, k, x) {
        BoundsGrow(f, counts, k, before, x);
      }
    }
  }

  predicate Covers(rows: seq<Measured>, base: int, perProcess: int) {
    forall m :: m in rows ==> m.memoryTarget <= Given(base, perProcess, m)
  }

  predicate CoversCounts(largest: Largest, base: int, perProcess: int) {
    forall p :: p in largest ==> largest[p] <= base + p * perProcess
  }

  /** Covering the largest row of every process count covers every row. */
  lemma CoversByCounts(rows: seq<Measured>, largest: Largest, base: int, perProcess: int)
    requires IsLargest(rows, largest)
    ensures Covers(rows, base, perProcess) <==> CoversCounts(largest, base, perProcess)
  {
    forall m | m in rows && CoversCounts(largest, base, perProcess) ensures m.memoryTarget <= Given(base, perProcess, m) {
      GivenCovers(base, perProcess, m);
    }
    forall p | p in largest && Covers(rows, base, perProcess) ensures largest[p] <= base + p * perProcess {
      var m :| m in rows && Processes(m) == p && Normalized(m) == largest[p];
      GivenCovers(base, perProcess, m);
    }
  }

  /** When perProcess is at least every slope, the rows of the smallest process
      count decide the base: covering them covers every row. */
  lemma SmallestCountDecides(rows: seq<Measured>, largest: Largest, least: nat, base: int, perProcess: int)
    requires IsLargest(rows, largest) && SlopesWithin(largest, perProcess)
    requires least in largest && forall p :: p in largest ==> least <= p
    requires largest[least] <= base + least * perProcess
    ensures Covers(rows, base, perProcess)
  {
    forall p | p in largest ensures largest[p] <= base + p * perProcess {
      if least < p {
        assert perProcess * (p - least) == p * perProcess - least * perProcess;
      }
    }
    CoversByCounts(rows, largest, base, perProcess);
  }

  /** The least multiple of 16, at least 32, that no slope between two process
      counts exceeds. */
  ghost predicate IsPerProcess(largest: Largest, n: int) {
    IsMultiple(n, 16) && 32 <= n && SlopesWithin(largest, n)
    && forall m :: IsMultiple(m, 16) && 32 <= m && SlopesWithin(largest, m) ==> n <= m
  }

  /** The least multiple of 16, not negative, that covers every row. */
  ghost predicate IsBase(rows: seq<Measured>, perProcess: int, n: int) {
    IsMultiple(n, 16) && 0 <= n && Covers(rows, n, perProcess)
    && forall m :: IsMultiple(m, 16) && 0 <= m && Covers(rows, m, perProcess) ==> n <= m
  }

  /** The least multiple of 16, at least 32, that covers every row over base. */
  ghost predicate IsOwnFigure(rows: seq<Measured>, base: int, n: int) {
    IsMultiple(n, 16) && 32 <= n && Covers(rows, base, n)
    && forall m :: IsMultiple(m, 16) && 32 <= m && Covers(rows, base, m) ==> n <= m
  }

  lemma BoundedPair(counts: seq<nat>, f: (nat, nat) -> real, slope: real, p: nat, q: nat)
    requires InOrder(counts) && p in counts && q in counts && p < q
    requires forall i :: 0 <= i < |counts| ==> BoundsFrom(f, counts, i, slope)
    ensures f(p, q) <= slope
  {
    var i :| 0 <= i < |counts| && counts[i] == p;
    var j :| 0 <= j < |counts| && counts[j] == q;
    assert BoundsFrom(f, counts, i, slope);
  }

  lemma SlopeAbove(largest: Largest, counts: seq<nat>, f: (nat, nat) -> real, slope: real, x: int, p: nat, q: nat)
    requires AreCounts(counts, largest) && p in largest && q in largest && p < q && f(p, q) == SlopeOf(largest, p, q)
    requires forall i :: 0 <= i < |counts| ==> BoundsFrom(f, counts, i, slope)
    requires slope <= x as real
    ensures largest[q] - largest[p] <= x * (q - p)
  {
    BoundedPair(counts, f, slope, p, q);
    SlopeBound(largest, p, q, x);
  }

  lemma SlopeBelow(largest: Largest, counts: seq<nat>, f: (nat, nat) -> real, slope: real, x: int, i: nat, j: nat)
    requires AreCounts(counts, largest) && i < j < |counts| && f(counts[i], counts[j]) == slope
    requires f(counts[i], counts[j]) == SlopeOf(largest, counts[i], counts[j])
    requires SlopesWithin(largest, x)
    ensures slope <= x as real
  {
    assert counts[i] in largest && counts[j] in largest;
    SlopeBound(largest, counts[i], counts[j], x);
  }

  lemma SlopeDecides(largest: Largest, counts: seq<nat>, f: (nat, nat) -> real, slope: real, x: int)
    requires AreCounts(counts, largest) && forall p: nat, q: nat :: f(p, q) == SlopeOf(largest, p, q)
    requires Attained(f, counts, slope) && forall i :: 0 <= i < |counts| ==> BoundsFrom(f, counts, i, slope)
    ensures slope <= x as real <==> SlopesWithin(largest, x)
  {
    forall p, q | p in largest && q in largest && p < q && slope <= x as real
      ensures largest[q] - largest[p] <= x * (q - p)
    {
      SlopeAbove(largest, counts, f, slope, x, p, q);
    }
    if SlopesWithin(largest, x) {
      var i, j :| 0 <= i < j < |counts| && f(counts[i], counts[j]) == slope;
      SlopeBelow(largest, counts, f, slope, x, i, j);
    }
  }

  lemma PerProcessFound(largest: Largest, counts: seq<nat>, f: (nat, nat) -> real, slope: real, most: real)
    requires AreCounts(counts, largest) && forall p: nat, q: nat :: f(p, q) == SlopeOf(largest, p, q)
    requires Attained(f, counts, slope) && forall i :: 0 <= i < |counts| ==> BoundsFrom(f, counts, i, slope)
    requires most == if slope > 32.0 then slope else 32.0
    ensures IsPerProcess(largest, RoundUp(most, 16))
  {
    var n := RoundUp(most, 16);
    RoundUpBounds(most, 16);
    SlopeDecides(largest, counts, f, slope, n);
    forall m | IsMultiple(m, 16) && 32 <= m && SlopesWithin(largest, m) ensures n <= m {
      SlopeDecides(largest, counts, f, slope, m);
      RoundUpIsLeast(most, 16, m);
    }
  }

  method PerProcess(largest: Largest, counts: seq<nat>) returns (perProcess: int)
    requires AreCounts(counts, largest) && |counts| >= 2
    ensures IsPerProcess(largest, perProcess)
  {
    var f := (p: nat, q: nat) => SlopeOf(largest, p, q);
    var slope := Greatest(f, counts);
    var most := if slope > 32.0 then slope else 32.0;
    PerProcessFound(largest, counts, f, slope, most);
    perProcess := RoundUp(most, 16);
  }

  /** The greatest need over the counts, not below zero. */
  method GreatestNeed(need: nat -> int, counts: seq<nat>) returns (most: int)
    ensures 0 <= most && forall p :: p in counts ==> need(p) <= most
    ensures most == 0 || exists p :: p in counts && need(p) == most
  {
    most := 0;
    for i := 0 to |counts|
      invariant 0 <= most && forall p :: p in counts[..i] ==> need(p) <= most
      invariant most == 0 || exists p :: p in counts && need(p) == most
    {
      assert counts[..i + 1] == counts[..i] + [counts[i]];
      if most < need(counts[i]) {
        most := need(counts[i]);
      }
    }
    assert counts[..|counts|] == counts;
  }

  method Base(rows: seq<Measured>, largest: Largest, counts: seq<nat>, perProcess: int) returns (base: int)
    requires IsLargest(rows, largest) && AreCounts(counts, largest)
    ensures IsBase(rows, perProcess, base)
  {
    var need := (p: nat) => if p in largest then largest[p] - p * perProcess else 0;
    var most := GreatestNeed(need, counts);
    forall p | p in largest ensures largest[p] - p * perProcess <= most {
      assert p in counts && need(p) <= most;
    }
    if most != 0 {
      ghost var p: nat :| p in counts && need(p) == most;
      assert p in largest && largest[p] - p * perProcess == most;
    }
    BaseFound(rows, largest, perProcess, most);
    base := RoundUp(most as real, 16);
  }

  lemma BaseFound(rows: seq<Measured>, largest: Largest, perProcess: int, most: int)
    requires IsLargest(rows, largest) && 0 <= most
    requires forall p :: p in largest ==> largest[p] - p * perProcess <= most
    requires most == 0 || exists p :: p in largest && largest[p] - p * perProcess == most
    ensures IsBase(rows, perProcess, RoundUp(most as real, 16))
  {
    var n := RoundUp(most as real, 16);
    RoundUpBounds(most as real, 16);
    CoversByCounts(rows, largest, n, perProcess);
    forall m | IsMultiple(m, 16) && 0 <= m && Covers(rows, m, perProcess) ensures n <= m {
      CoversByCounts(rows, largest, m, perProcess);
      RoundUpIsLeast(most as real, 16, m);
    }
  }

  lemma SmallestNeedsMost(largest: Largest, least: nat, perProcess: int, p: nat)
    requires SlopesWithin(largest, perProcess) && least in largest && p in largest && least <= p
    ensures largest[p] - p * perProcess <= largest[least] - least * perProcess
  {
    if least < p {
      assert perProcess * (p - least) == p * perProcess - least * perProcess;
    }
  }

  lemma OneBase(rows: seq<Measured>, perProcess: int, a: int, b: int)
    requires IsBase(rows, perProcess, a)
    ensures IsBase(rows, perProcess, b) <==> a == b
  {}

  /** So the base is what the smallest process count needs, rounded up to 16, and
      nothing else measured changes it. */
  lemma BaseFromSmallestCount(rows: seq<Measured>, largest: Largest, least: nat, perProcess: int, base: int)
    requires IsLargest(rows, largest) && SlopesWithin(largest, perProcess)
    requires least in largest && forall p :: p in largest ==> least <= p
    ensures IsBase(rows, perProcess, base)
            <==> base == var need := largest[least] - least * perProcess;
                         RoundUp((if need < 0 then 0 else need) as real, 16)
  {
    var need := largest[least] - least * perProcess;
    var most := if need < 0 then 0 else need;
    forall p | p in largest ensures largest[p] - p * perProcess <= most {
      SmallestNeedsMost(largest, least, perProcess, p);
    }
    BaseFound(rows, largest, perProcess, most);
    OneBase(rows, perProcess, RoundUp(most as real, 16), base);
  }

  datatype Error = Incomplete(message: string) | DivisionByZero

  datatype Memory = Memory(base: int, perProcess: int)

  /** Rule 3. It fails exactly when fewer than two process counts were measured;
      otherwise both figures are the least that do their job. */
  method MemoryFormula(rows: seq<Measured>) returns (r: Result<Memory, Error>)
    ensures r.Err? <==> forall m, n :: m in rows && n in rows ==> Processes(m) == Processes(n)
    ensures r.Ok? ==> exists largest :: IsLargest(rows, largest) && IsPerProcess(largest, r.value.perProcess)
    ensures r.Ok? ==> IsBase(rows, r.value.perProcess, r.value.base)
  {
    var largest := LargestByCount(rows);
    var counts := CountsInOrder(largest);
    FewCounts(rows, largest, counts);
    if |counts| < 2 {
      return Err(Incomplete("the formula needs rows at two process counts"));
    }
    var perProcess := PerProcess(largest, counts);
    var base := Base(rows, largest, counts, perProcess);
    return Ok(Memory(base, perProcess));
  }

  lemma FewCounts(rows: seq<Measured>, largest: Largest, counts: seq<nat>)
    requires IsLargest(rows, largest) && AreCounts(counts, largest)
    ensures |counts| < 2 <==> forall m, n :: m in rows && n in rows ==> Processes(m) == Processes(n)
  {
    if |counts| < 2 {
      forall m, n | m in rows && n in rows ensures Processes(m) == Processes(n) {
        assert Processes(m) in counts && Processes(n) in counts;
      }
    } else {
      assert counts[0] in counts && counts[1] in counts;
      assert counts[0] in largest && counts[1] in largest;
      var m :| m in rows && Processes(m) == counts[0];
      var n :| n in rows && Processes(n) == counts[1];
    }
  }

  // ---- rule 4: Glance's own figure -------------------------------------------------------------

  function OwnSlope(base: int, m: Measured): real
    requires Processes(m) > 0
  {
    (Normalized(m) - base) as real / Processes(m) as real
  }

  lemma OwnSlopeBound(base: int, m: Measured, x: int)
    requires Processes(m) > 0
    ensures OwnSlope(base, m) <= x as real <==> m.memoryTarget <= Given(base, x, m)
  {
    var p := Processes(m);
    DivideTimes((Normalized(m) - base) as real, p as real);
    ScaledOrder(OwnSlope(base, m), x as real, p as real);
    RealTimes(x, p);
    GivenCovers(base, x, m);
    assert Times(x, p) == p * x;
  }

  /** Rule 4. A row with no process divides by zero; the source does not guard it. */
  method GlanceFigure(rows: seq<Measured>, base: int) returns (r: Result<int, Error>)
    ensures r.Err? <==> rows == [] || exists m :: m in rows && Processes(m) == 0
    ensures r.Ok? ==> IsOwnFigure(rows, base, r.value)
  {
    if rows == [] {
      return Err(Incomplete("no Glance row was measured"));
    }
    var most := 32.0;
    for i := 0 to |rows|
      invariant forall k :: 0 <= k < i ==> Processes(rows[k]) > 0 && OwnSlope(base, rows[k]) <= most
      invariant 32.0 <= most
      invariant most == 32.0 || exists k :: 0 <= k < i && OwnSlope(base, rows[k]) == most
    {
      if Processes(rows[i]) == 0 {
        assert rows[i] in rows;
        return Err(DivisionByZero);
      }
      if most < OwnSlope(base, rows[i]) {
        most := OwnSlope(base, rows[i]);
      }
    }
    OwnFigureFound(rows, base, most);
    return Ok(RoundUp(most, 16));
  }

  lemma OwnFigureFound(rows: seq<Measured>, base: int, most: real)
    requires forall k :: 0 <= k < |rows| ==> Processes(rows[k]) > 0 && OwnSlope(base, rows[k]) <= most
    requires 32.0 <= most
    requires most == 32.0 || exists k :: 0 <= k < |rows| && OwnSlope(base, rows[k]) == most
    ensures IsOwnFigure(rows, base, RoundUp(most, 16))
  {
    var n := RoundUp(most, 16);
    RoundUpBounds(most, 16);
    forall m | m in rows ensures m.memoryTarget <= Given(base, n, m) {
      OwnSlopeBound(base, m, n);
    }
    forall m | IsMultiple(m, 16) && 32 <= m && Covers(rows, base, m) ensures n <= m {
      if most != 32.0 {
        var k :| 0 <= k < |rows| && OwnSlope(base, rows[k]) == most;
        OwnSlopeBound(base, rows[k], m);
      }
      RoundUpIsLeast(most, 16, m);
    }
  }

  // ---- rule 6: the Minimal CPU request --------------------------------------------------------------

  function InsertSorted(x: nat, xs: seq<nat>): seq<nat> {
    if xs == [] || x <= xs[0] then [x] + xs else [xs[0]] + InsertSorted(x, xs[1..])
  }

  function Sorted(xs: seq<nat>): seq<nat> {
    if xs == [] then [] else InsertSorted(xs[0], Sorted(xs[1..]))
  }

  /** How many values are below v, or at most v. */
  function CountUpTo(xs: seq<nat>, v: nat, inclusive: bool): nat {
    if xs == [] then 0
    else (if xs[0] < v || (inclusive && xs[0] == v) then 1 else 0) + CountUpTo(xs[1..], v, inclusive)
  }

  predicate Ascending(xs: seq<nat>) { forall i, j :: 0 <= i < j < |xs| ==> xs[i] <= xs[j] }

  lemma {:induction false} InsertSortedKeeps(x: nat, xs: seq<nat>)
    requires Ascending(xs)
    ensures Ascending(InsertSorted(x, xs)) && |InsertSorted(x, xs)| == |xs| + 1
    ensures forall y :: y in InsertSorted(x, xs) <==> y == x || y in xs
  {
    if xs != [] && x > xs[0] {
      var rest := InsertSorted(x, xs[1..]);
      InsertSortedKeeps(x, xs[1..]);
      assert xs == [xs[0]] + xs[1..];
      assert forall i :: 0 <= i < |rest| ==> rest[i] in rest;
    }
  }

  lemma {:induction false} InsertSortedCounts(x: nat, xs: seq<nat>, v: nat, inclusive: bool)
    ensures CountUpTo(InsertSorted(x, xs), v, inclusive) == CountUpTo([x], v, inclusive) + CountUpTo(xs, v, inclusive)
  {
    assert [x][1..] == [];
    if xs == [] || x <= xs[0] {
      assert ([x] + xs)[1..] == xs;
    } else {
      InsertSortedCounts(x, xs[1..], v, inclusive);
      assert InsertSorted(x, xs)[1..] == InsertSorted(x, xs[1..]);
    }
  }

  lemma {:induction false} SortedKeeps(xs: seq<nat>)
    ensures Ascending(Sorted(xs)) && |Sorted(xs)| == |xs|
    ensures forall y :: y in Sorted(xs) <==> y in xs
  {
    if xs != [] {
      SortedKeeps(xs[1..]);
      InsertSortedKeeps(xs[0], Sorted(xs[1..]));
      assert xs == [xs[0]] + xs[1..];
    }
  }

  lemma {:induction false} SortedCounts(xs: seq<nat>, v: nat, inclusive: bool)
    ensures CountUpTo(Sorted(xs), v, inclusive) == CountUpTo(xs, v, inclusive)
  {
    if xs != [] {
      SortedCounts(xs[1..], v, inclusive);
      InsertSortedCounts(xs[0], Sorted(xs[1..]), v, inclusive);
      assert [xs[0]][1..] == [];
    }
  }

  function UpperMedian(values: seq<nat>): nat
    requires values != []
  {
    SortedKeeps(values);
    Sorted(values)[|values| / 2]
  }

  lemma {:induction false} CountAscending(xs: seq<nat>, k: nat, v: nat)
    requires Ascending(xs) && k < |xs| && xs[k] == v
    ensures CountUpTo(xs, v, false) <= k < CountUpTo(xs, v, true)
  {
    if k > 0 {
      CountAscending(xs[1..], k - 1, v);
    } else {
      NoneBelow(xs, v);
    }
  }

  lemma {:induction false} NoneBelow(xs: seq<nat>, v: nat)
    requires forall x :: x in xs ==> v <= x
    ensures CountUpTo(xs, v, false) == 0
  {
    if xs != [] {
      assert xs[0] in xs && forall x :: x in xs[1..] ==> x in xs;
      NoneBelow(xs[1..], v);
    }
  }

  /** The upper median is a measured value that splits the list: at most half are
      below it, more than half are at most it. */
  lemma UpperMedianSplits(values: seq<nat>)
    requires values != []
    ensures UpperMedian(values) in values
    ensures CountUpTo(values, UpperMedian(values), false) <= |values| / 2 < CountUpTo(values, UpperMedian(values), true)
  {
    var v := UpperMedian(values);
    SortedKeeps(values);
    SortedCounts(values, v, false);
    SortedCounts(values, v, true);
    CountAscending(Sorted(values), |values| / 2, v);
  }

  /** Nothing else splits it, so the order the values were collected in is immaterial. */
  lemma UpperMedianIsTheOnly(values: seq<nat>, v: nat)
    requires values != [] && CountUpTo(values, v, false) <= |values| / 2 < CountUpTo(values, v, true)
    ensures v == UpperMedian(values)
  {
    UpperMedianSplits(values);
    var w := UpperMedian(values);
    CountsNest(values, v, w);
    CountsNest(values, w, v);
  }

  lemma {:induction false} CountsNest(xs: seq<nat>, v: nat, w: nat)
    ensures v < w ==> CountUpTo(xs, v, true) <= CountUpTo(xs, w, false)
  {
    if xs != [] {
      CountsNest(xs[1..], v, w);
    }
  }

  function Key(m: Measured): string { m.ownerKind + "/" + m.component + "/" + m.container }

  /** Rows share a key exactly when owner kind, component and container agree, since no
      such name holds a slash. */
  lemma KeyTells(a: Measured, b: Measured)
    requires '/' !in a.ownerKind && '/' !in a.component && '/' !in b.ownerKind && '/' !in b.component
    ensures Key(a) == Key(b) <==> a.ownerKind == b.ownerKind && a.component == b.component && a.container == b.container
  {
    if Key(a) == Key(b) {
      var p, q := a.component + ['/'] + a.container, b.component + ['/'] + b.container;
      assert Key(a) == a.ownerKind + ['/'] + p && Key(b) == b.ownerKind + ['/'] + q;
      CutUnique(a.ownerKind, p, b.ownerKind, q, '/');
      CutUnique(a.component, a.container, b.component, b.container, '/');
    }
  }

  /** The largest CPU target per key. */
  ghost predicate IsLargestPerKey(rows: seq<Measured>, best: map<string, nat>) {
    (forall m :: m in rows ==> Key(m) in best && m.cpuTarget <= best[Key(m)])
    && (forall k :: k in best ==> exists m :: m in rows && Key(m) == k && m.cpuTarget == best[k])
  }

  method LargestPerKey(rows: seq<Measured>) returns (best: map<string, nat>)
    ensures IsLargestPerKey(rows, best)
  {
    best := map[];
    for i := 0 to |rows|
      invariant IsLargestPerKey(rows[..i], best)
    {
      var m := rows[i];
      var key := Key(m);
      assert rows[..i + 1] == rows[..i] + [m];
      ghost var before := best;
      var known := if key in best then best[key] else 0;
      best := best[key := if known < m.cpuTarget then m.cpuTarget else known];
      assert m in rows[..i + 1];
      forall k | k in best ensures exists n :: n in rows[..i + 1] && Key(n) == k && n.cpuTarget == best[k] {
        if k != key {
          assert k in before;
        } else if key in before && m.cpuTarget <= before[key] {
          var n :| n in rows[..i] && Key(n) == key && n.cpuTarget == before[key];
          assert n in rows[..i + 1];
        }
      }
    }
    assert rows[..|rows|] == rows;
  }

  /** The keys of a dictionary whose value is below v, or at most v. */
  function KeysBelow(best: map<string, nat>, v: nat, inclusive: bool): set<string> {
    set k | k in best && (best[k] < v || (inclusive && best[k] == v))
  }

  /** At most half of the keys are below v, more than half at most v. */
  predicate SplitsKeys(best: map<string, nat>, v: nat) {
    v in best.Values && |KeysBelow(best, v, false)| <= |best| / 2 < |KeysBelow(best, v, true)|
  }

  ghost predicate OnePerKey(values: seq<nat>, best: map<string, nat>) {
    |values| == |best| && (forall v :: v in values ==> v in best.Values)
    && forall v, inclusive :: CountUpTo(values, v, inclusive) == |KeysBelow(best, v, inclusive)|
  }

  function Pick(best: map<string, nat>, keys: seq<string>): seq<nat>
    requires forall k :: k in keys ==> k in best
  {
    if keys == [] then [] else [best[keys[0]]] + Pick(best, keys[1..])
  }

  /** Those of the given keys whose value is below v, or at most v. */
  ghost function Among(best: map<string, nat>, keys: seq<string>, v: nat, inclusive: bool): set<string> {
    set k | k in keys && k in KeysBelow(best, v, inclusive)
  }

  lemma AmongOneMore(best: map<string, nat>, keys: seq<string>, v: nat, inclusive: bool)
    requires keys != [] && keys[0] in best && keys[0] !in keys[1..]
    ensures |Among(best, keys, v, inclusive)|
         == |Among(best, keys[1..], v, inclusive)| + if keys[0] in KeysBelow(best, v, inclusive) then 1 else 0
  {
    var k, rest := keys[0], keys[1..];
    assert forall x :: x in keys <==> x == k || x in rest;
    assert Among(best, keys, v, inclusive)
        == Among(best, rest, v, inclusive) + if k in KeysBelow(best, v, inclusive) then {k} else {};
  }

  lemma {:induction false} PickCounts(best: map<string, nat>, keys: seq<string>, v: nat, inclusive: bool)
    requires (forall k :: k in keys ==> k in best) && Distinct(keys)
    ensures CountUpTo(Pick(best, keys), v, inclusive) == |Among(best, keys, v, inclusive)|
  {
    if keys != [] {
      PickCounts(best, keys[1..], v, inclusive);
      AmongOneMore(best, keys, v, inclusive);
    }
  }

  lemma {:induction false} PickMembers(best: map<string, nat>, keys: seq<string>, v: nat)
    requires forall k :: k in keys ==> k in best
    ensures |Pick(best, keys)| == |keys|
    ensures v in Pick(best, keys) ==> v in best.Values
  {
    if keys != [] {
      PickMembers(best, keys[1..], v);
      assert best[keys[0]] in best.Values;
    }
  }

  lemma {:induction false} DistinctSize(keys: seq<string>)
    requires Distinct(keys)
    ensures |set k | k in keys| == |keys|
  {
    if keys != [] {
      DistinctSize(keys[1..]);
      assert keys == [keys[0]] + keys[1..] && keys[0] !in keys[1..];
      assert (set k | k in keys) == {keys[0]} + set k | k in keys[1..];
    }
  }

  lemma PickIsOnePerKey(best: map<string, nat>, keys: seq<string>)
    requires Distinct(keys) && forall k :: k in keys <==> k in best.Keys
    ensures OnePerKey(Pick(best, keys), best)
  {
    DistinctSize(keys);
    assert (set k | k in keys) == best.Keys;
    PickMembers(best, keys, 0);
    forall v | v in Pick(best, keys) ensures v in best.Values {
      PickMembers(best, keys, v);
    }
    forall v, inclusive ensures CountUpTo(Pick(best, keys), v, inclusive) == |KeysBelow(best, v, inclusive)| {
      PickCounts(best, keys, v, inclusive);
      assert Among(best, keys, v, inclusive) == KeysBelow(best, v, inclusive);
    }
  }

  function AtLeast10(n: int): int { if n < 10 then 10 else n }

  lemma MedianSplits(values: seq<nat>, best: map<string, nat>)
    requires OnePerKey(values, best) && values != []
    ensures SplitsKeys(best, UpperMedian(values))
  {
    UpperMedianSplits(values);
  }

  lemma FiveStep(x: real)
    ensures RoundUp(x, 5) % 5 == 0
  {
    RoundUpBounds(x, 5);
    var k :| Times(k, 5) == RoundUp(x, 5);
  }

  /** The upper median of the largest CPU targets per key, rounded up, at least 10m. */
  ghost predicate IsMedianRequest(rows: seq<Measured>, step: int, n: int)
    requires step > 0
  {
    exists best, v :: IsLargestPerKey(rows, best) && SplitsKeys(best, v) && n == AtLeast10(RoundUp(v as real, step))
  }

  /** Rules 5 and 6, over their rows and with their step. */
  method MedianCPU(rows: seq<Measured>, step: int, missing: string) returns (r: Result<int, Error>)
    requires step > 0
    ensures r.Err? <==> rows == []
    ensures r.Ok? ==> IsMedianRequest(rows, step, r.value)
  {
    if rows == [] {
      return Err(Incomplete(missing));
    }
    var best := LargestPerKey(rows);
    assert Key(rows[0]) in best;
    var keys := CollectKeys(best);
    var values := Pick(best, keys);
    PickIsOnePerKey(best, keys);
    MedianSplits(values, best);
    return Ok(AtLeast10(RoundUp(UpperMedian(values) as real, step)));
  }

  lemma AtLeast10In5(x: real)
    ensures 10 <= AtLeast10(RoundUp(x, 5)) && AtLeast10(RoundUp(x, 5)) % 5 == 0
  {
    FiveStep(x);
  }

  lemma MedianRequestOf5(rows: seq<Measured>, n: int)
    requires IsMedianRequest(rows, 5, n)
    ensures 10 <= n && n % 5 == 0
  {
    var best, v :| IsLargestPerKey(rows, best) && SplitsKeys(best, v) && n == AtLeast10(RoundUp(v as real, 5));
    AtLeast10In5(v as real);
  }

  // ---- rule 9: the node budget --------------------------------------------------------------------------

  function OrZero(n: Option<nat>): nat { if n.Some? then n.value else 0 }

  /** A backing row with the figures rule 7 gave its kind. */
  datatype Backed = Backed(m: Measured, cpu: int, memory: int)

  datatype Figures = Figures(memory: Memory, glancePerProcess: int)

  /** A fixed or hand-set figure stays; any other container takes the formula's. */
  function ServiceMemory(f: Figures, m: Measured): Option<int> {
    if FixedMemory(m) || m.memoryLimit.None? || m.memoryLimit != m.memoryRequest then
      (if m.memoryRequest.Some? then Some(m.memoryRequest.value) else None)
    else
      Some(Given(f.memory.base, if IsGlance(m) then f.glancePerProcess else f.memory.perProcess, m))
  }

  /** The projection moves the memory of a service exactly when its limit is set, equals its
      request and is no fixed figure; then the container gets what the formula gives it. */
  lemma MovesMemoryIff(f: Figures, m: Measured)
    ensures m.memoryRequest.Some? && m.memoryLimit == m.memoryRequest && !FixedMemory(m) ==>
              ServiceMemory(f, m) == Some(f.memory.base + Processes(m)
                * ((if m.ownerKind == "Glance" && m.container !in SIDECARS then f.glancePerProcess else f.memory.perProcess)
                   + (Threads(m) - 1) * MEMORY_PER_EXTRA_THREAD))
    ensures m.memoryLimit.None? || m.memoryLimit != m.memoryRequest || FixedMemory(m) ==>
              (if ServiceMemory(f, m).Some? then ServiceMemory(f, m).value else 0) == OrZero(m.memoryRequest)
  {
    ClassIff(m);
  }

  function ServicesCPU(rows: seq<Measured>, each: int): int {
    if rows == [] then 0
    else
      var m := rows[|rows| - 1];
      ServicesCPU(rows[..|rows| - 1], each) + (each - OrZero(m.cpuRequest)) * Pods(m)
  }

  function BackingCPU(rows: seq<Backed>): int {
    if rows == [] then 0
    else
      var b := rows[|rows| - 1];
      BackingCPU(rows[..|rows| - 1]) + (b.cpu - OrZero(b.m.cpuRequest)) * Pods(b.m)
  }

  function ServicesMemory(f: Figures, rows: seq<Measured>): int {
    if rows == [] then 0
    else
      var m := rows[|rows| - 1];
      var memory := ServiceMemory(f, m);
      ServicesMemory(f, rows[..|rows| - 1])
      + ((if memory.Some? then memory.value else 0) - OrZero(m.memoryRequest)) * Pods(m)
  }

  function BackingMemory(rows: seq<Backed>): int {
    if rows == [] then 0
    else
      var b := rows[|rows| - 1];
      BackingMemory(rows[..|rows| - 1]) + (b.memory - OrZero(b.m.memoryRequest)) * Pods(b.m)
  }

  datatype Node = Node(cpu: int, memory: int, services: seq<Measured>, backing: seq<Backed>, figures: Figures)

  function ProjectedCPU(n: Node, each: int): int { n.cpu + ServicesCPU(n.services, each) + BackingCPU(n.backing) }

  function ProjectedMemory(n: Node): int { n.memory + ServicesMemory(n.figures, n.services) + BackingMemory(n.backing) }

  method ProjectServices(f: Figures, rows: seq<Measured>, each: int) returns (cpu: int, memory: int)
    ensures cpu == ServicesCPU(rows, each) && memory == ServicesMemory(f, rows)
  {
    cpu, memory := 0, 0;
    for i := 0 to |rows|
      invariant cpu == ServicesCPU(rows[..i], each) && memory == ServicesMemory(f, rows[..i])
    {
      assert rows[..i + 1][..i] == rows[..i];
      cpu := cpu + (each - OrZero(rows[i].cpuRequest)) * Pods(rows[i]);
      var service := ServiceMemory(f, rows[i]);
      memory := memory + ((if service.Some? then service.value else 0) - OrZero(rows[i].memoryRequest)) * Pods(rows[i]);
    }
    assert rows[..|rows|] == rows;
  }

  method ProjectBacking(rows: seq<Backed>) returns (cpu: int, memory: int)
    ensures cpu == BackingCPU(rows) && memory == BackingMemory(rows)
  {
    cpu, memory := 0, 0;
    for i := 0 to |rows|
      invariant cpu == BackingCPU(rows[..i]) && memory == BackingMemory(rows[..i])
    {
      assert rows[..i + 1][..i] == rows[..i];
      cpu := cpu + (rows[i].cpu - OrZero(rows[i].m.cpuRequest)) * Pods(rows[i].m);
      memory := memory + (rows[i].memory - OrZero(rows[i].m.memoryRequest)) * Pods(rows[i].m);
    }
    assert rows[..|rows|] == rows;
  }

  method Project(n: Node, each: int) returns (cpu: int, memory: int)
    ensures cpu == ProjectedCPU(n, each) && memory == ProjectedMemory(n)
  {
    var servicesCPU, servicesMemory := ProjectServices(n.figures, n.services, each);
    var backingCPU, backingMemory := ProjectBacking(n.backing);
    return n.cpu + servicesCPU + backingCPU, n.memory + servicesMemory + backingMemory;
  }

  // The projection: what the projected containers request now is taken off the node, what
  // they would request is put on.

  function Sum(f: Measured -> int, rows: seq<Measured>): int {
    if rows == [] then 0 else Sum(f, rows[..|rows| - 1]) + f(rows[|rows| - 1])
  }

  function Rows(backing: seq<Backed>): seq<Measured> {
    if backing == [] then [] else Rows(backing[..|backing| - 1]) + [backing[|backing| - 1].m]
  }

  function RequestedCPU(m: Measured): int { Pods(m) * (if m.cpuRequest.Some? then m.cpuRequest.value else 0) }

  function RequestedMemory(m: Measured): int { Pods(m) * (if m.memoryRequest.Some? then m.memoryRequest.value else 0) }

  lemma Distribute(n: int, a: int, b: int)
    ensures (a - b) * n == n * a - n * b
  {}

  lemma {:induction false} ServicesReplace(f: Figures, rows: seq<Measured>, each: int)
    ensures ServicesCPU(rows, each) == Sum(m => Pods(m) * each, rows) - Sum(RequestedCPU, rows)
    ensures ServicesMemory(f, rows) == Sum(m => Pods(m) * OrZeroInt(ServiceMemory(f, m)), rows) - Sum(RequestedMemory, rows)
  {
    if rows != [] {
      var n := |rows| - 1;
      var m := rows[n];
      ServicesReplace(f, rows[..n], each);
      Distribute(Pods(m), each, OrZero(m.cpuRequest));
      Distribute(Pods(m), OrZeroInt(ServiceMemory(f, m)), OrZero(m.memoryRequest));
    }
  }

  function OrZeroInt(n: Option<int>): int { if n.Some? then n.value else 0 }

  function BackedCPU(backing: seq<Backed>): int {
    if backing == [] then 0
    else BackedCPU(backing[..|backing| - 1]) + Pods(backing[|backing| - 1].m) * backing[|backing| - 1].cpu
  }

  function BackedMemory(backing: seq<Backed>): int {
    if backing == [] then 0
    else BackedMemory(backing[..|backing| - 1]) + Pods(backing[|backing| - 1].m) * backing[|backing| - 1].memory
  }

  lemma {:induction false} BackingReplaces(rows: seq<Backed>)
    ensures BackingCPU(rows) == BackedCPU(rows) - Sum(RequestedCPU, Rows(rows))
    ensures BackingMemory(rows) == BackedMemory(rows) - Sum(RequestedMemory, Rows(rows))
  {
    if rows != [] {
      var n := |rows| - 1;
      var b := rows[n];
      BackingReplaces(rows[..n]);
      assert Rows(rows)[..|Rows(rows)| - 1] == Rows(rows[..n]);
      Distribute(Pods(b.m), b.cpu, OrZero(b.m.cpuRequest));
      Distribute(Pods(b.m), b.memory, OrZero(b.m.memoryRequest));
    }
  }

  /** So the projected totals are the node's, less what the projected containers request
      today, plus what the figures give them, each as often as it has pods; and raising
      the Minimal request by one costs one per pod of a profiled service. */
  lemma ProjectionReplaces(n: Node, each: int)
    ensures ProjectedCPU(n, each)
         == n.cpu - Sum(RequestedCPU, n.services) - Sum(RequestedCPU, Rows(n.backing))
            + Sum(m => Pods(m) * each, n.services) + BackedCPU(n.backing)
    ensures ProjectedMemory(n)
         == n.memory - Sum(RequestedMemory, n.services) - Sum(RequestedMemory, Rows(n.backing))
            + Sum(m => Pods(m) * OrZeroInt(ServiceMemory(n.figures, m)), n.services) + BackedMemory(n.backing)
  {
    ServicesReplace(n.figures, n.services, each);
    BackingReplaces(n.backing);
  }

  lemma {:induction false} MoreCostsMore(rows: seq<Measured>, a: int, b: int)
    requires a <= b
    ensures ServicesCPU(rows, a) <= ServicesCPU(rows, b)
  {
    if rows != [] {
      var m := rows[|rows| - 1];
      MoreCostsMore(rows[..|rows| - 1], a, b);
      var c := OrZero(m.cpuRequest);
      assert (b - c) * Pods(m) - (a - c) * Pods(m) == (b - a) * Pods(m) >= 0;
    }
  }

  datatype Budget = Fits | OverCPU | OverMemory(excess: int)

  /** Rule 9: the largest figure in steps of 5m, at least 10m, that fits the node;
      no larger figure fits. OverCPU says that not even 10m does. */
  method FitBudget(n: Node, start: int) returns (figure: int, b: Budget)
    requires 10 <= start && start % 5 == 0
    ensures 10 <= figure <= start && figure % 5 == 0
    ensures forall s :: figure + 5 <= s && figure < start ==> ProjectedCPU(n, s) > BUDGET_CPU
    ensures b.OverCPU? <==> ProjectedCPU(n, 10) > BUDGET_CPU
    ensures if b.OverCPU? then figure == 10 else ProjectedCPU(n, figure) <= BUDGET_CPU
    ensures b.Fits? <==> ProjectedCPU(n, figure) <= BUDGET_CPU && ProjectedMemory(n) <= BUDGET_MEMORY
    ensures b.OverMemory? ==> b.excess == ProjectedMemory(n) - BUDGET_MEMORY > 0
  {
    figure := start;
    var cpu, memory := Project(n, figure);
    var over := false;
    while cpu > BUDGET_CPU
      invariant 10 <= figure <= start && figure % 5 == 0
      invariant cpu == ProjectedCPU(n, figure) && memory == ProjectedMemory(n)
      invariant figure < start ==> ProjectedCPU(n, figure + 5) > BUDGET_CPU
      decreases figure
    {
      if figure <= 10 {
        over := true;
        break;
      }
      figure := figure - 5;
      cpu, memory := Project(n, figure);
    }
    forall s | figure + 5 <= s && figure < start ensures ProjectedCPU(n, s) > BUDGET_CPU {
      MoreCostsMore(n.services, figure + 5, s);
    }
    MoreCostsMore(n.services, 10, figure);
    if over {
      b := OverCPU;
    } else if memory > BUDGET_MEMORY {
      b := OverMemory(memory - BUDGET_MEMORY);
    } else {
      b := Fits;
    }
  }
}
