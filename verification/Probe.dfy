/** The API readiness probe: its TTL cache (internal/common/healthcheck/healthcheck.go),
    the flow that serves from it or probes, and the schedule that renews it
    (internal/common/healthcheck/flow.go). Times and durations are nanoseconds. */
module HealthProbe {
  import opened Wrappers

  type Key = string

  const SECOND := 1_000_000_000

  // ---- the cache -------------------------------------------------------------------

  /** The last successful probe of one CR. */
  datatype Entry = Entry(uid: string, endpoint: string, probedAt: int, ttl: int)

  type Entries = map<Key, Entry>

  function At(entries: Entries, key: Key): Option<Entry> {
    if key in entries then Some(entries[key]) else None
  }

  predicate IsHit(entries: Entries, key: Key, uid: string, endpoint: string, ttl: int, now: int) {
    key in entries && entries[key].uid == uid && entries[key].endpoint == endpoint
    && now - entries[key].probedAt < ttl
  }

  function Remaining(entries: Entries, key: Key, now: int): Option<int> {
    if key in entries then Some(entries[key].ttl - (now - entries[key].probedAt)) else None
  }

  class ProbeCache {
    var entries: Entries
    const noReprobe: bool

    constructor (noReprobe: bool)
      ensures entries == map[] && this.noReprobe == noReprobe
    {
      entries := map[];
      this.noReprobe := noReprobe;
    }

    method Hit(key: Key, uid: string, endpoint: string, ttl: int, now: int) returns (hit: bool)
      ensures hit <==> IsHit(entries, key, uid, endpoint, ttl, now)
    {
      if key !in entries {
        return false;
      }
      var entry := entries[key];
      return entry.uid == uid && entry.endpoint == endpoint && now - entry.probedAt < ttl;
    }

    method Store(key: Key, uid: string, endpoint: string, ttl: int, now: int)
      modifies this
      ensures entries == old(entries)[key := Entry(uid, endpoint, now, ttl)]
    {
      entries := entries[key := Entry(uid, endpoint, now, ttl)];
    }

    method Evict(key: Key)
      modifies this
      ensures entries == old(entries) - {key}
    {
      entries := entries - {key};
    }

    method ExpiresIn(key: Key, now: int) returns (remaining: int, ok: bool)
      ensures ok <==> key in entries
      ensures remaining == if ok then Remaining(entries, key, now).value else 0
    {
      if key !in entries {
        return 0, false;
      }
      return entries[key].ttl - (now - entries[key].probedAt), true;
    }
  }

  // ---- the flow ----------------------------------------------------------------------

  datatype Status = True | False | Unknown

  datatype Condition = Condition(status: Status, generation: int, reason: string, message: string)

  class Conditions {
    var items: map<string, Condition>

    method Set(conditionType: string, condition: Condition)
      modifies this
      ensures items == old(items)[conditionType := condition]
    {
      items := items[conditionType := condition];
    }
  }

  datatype Params = Params(
    key: Key, uid: string, subject: string, endpointConfigured: bool, probeEndpoint: string,
    generation: int, conditionType: string, healthyReason: string, unhealthyReason: string,
    cacheTTL: int, requeueAfter: int)

  /** What became of the GET: the request could not be built, no response came (with
      the parent context cancelled or not, and the classified cause), or a response. */
  datatype Answer =
    | NotBuilt
    | NoResponse(parentCancelled: bool, reason: string, message: string)
    | Response(code: int, message: string)

  predicate Succeeded(a: Answer) { a.Response? && 200 <= a.code < 300 }

  /** requeueAfter zero is controller-runtime's zero result. */
  datatype Outcome = Outcome(requeueAfter: int, err: bool)

  datatype State = State(entries: Entries, conditions: map<string, Condition>)

  function Healthy(p: Params): Condition {
    Condition(True, p.generation, p.healthyReason, p.subject + " is responding at " + p.probeEndpoint)
  }

  function Down(p: Params, reason: string, message: string): Condition {
    Condition(False, p.generation, reason, message)
  }

  predicate IsTrue(p: Params, s: State) {
    p.conditionType in s.conditions && s.conditions[p.conditionType].status == True
  }

  predicate CacheHit(p: Params, s: State, now: int) {
    IsTrue(p, s) && IsHit(s.entries, p.key, p.uid, p.probeEndpoint, p.cacheTTL, now)
  }

  predicate Probes(p: Params, s: State, now: int) { p.endpointConfigured && !CacheHit(p, s, now) }

  function Reported(p: Params, s: State, c: Condition): map<string, Condition> { s.conditions[p.conditionType := c] }

  /** The state a pass leaves: hitAt is the clock when the cache is asked, storedAt
      when a success is stored. */
  function After(p: Params, s: State, hitAt: int, a: Answer, storedAt: int): State {
    if !p.endpointConfigured then
      s.(conditions := Reported(p, s, Down(p, "EndpointNotReady", "endpoint not yet configured")))
    else if CacheHit(p, s, hitAt) then
      s.(conditions := Reported(p, s, Healthy(p)))
    else match a
      case NotBuilt => s
      case NoResponse(parentCancelled, reason, message) =>
        if parentCancelled then s
        else State(s.entries - {p.key}, Reported(p, s, Down(p, reason, message)))
      case Response(code, message) =>
        if 200 <= code < 300 then
          State(s.entries[p.key := Entry(p.uid, p.probeEndpoint, storedAt, p.cacheTTL)], Reported(p, s, Healthy(p)))
        else
          State(s.entries - {p.key}, Reported(p, s, Down(p, p.unhealthyReason, message)))
  }

  function OutcomeOf(p: Params, s: State, hitAt: int, a: Answer): Outcome {
    if !p.endpointConfigured then Outcome(p.requeueAfter, false)
    else if CacheHit(p, s, hitAt) then Outcome(0, false)
    else if a.NotBuilt? || (a.NoResponse? && a.parentCancelled) then Outcome(0, true)
    else if Succeeded(a) then Outcome(0, false)
    else Outcome(p.requeueAfter, false)
  }

  method ReconcileProbe(p: Params, cache: ProbeCache, conditions: Conditions, hitAt: int, a: Answer, storedAt: int)
    returns (r: Outcome)
    modifies cache, conditions
    ensures State(cache.entries, conditions.items)
         == After(p, State(old(cache.entries), old(conditions.items)), hitAt, a, storedAt)
    ensures r == OutcomeOf(p, State(old(cache.entries), old(conditions.items)), hitAt, a)
  {
    if !p.endpointConfigured {
      conditions.Set(p.conditionType, Down(p, "EndpointNotReady", "endpoint not yet configured"));
      return Outcome(p.requeueAfter, false);
    }
    if p.conditionType in conditions.items && conditions.items[p.conditionType].status == True {
      var hit := cache.Hit(p.key, p.uid, p.probeEndpoint, p.cacheTTL, hitAt);
      if hit {
        conditions.Set(p.conditionType, Healthy(p));
        return Outcome(0, false);
      }
    }
    match a
    case NotBuilt =>
      return Outcome(0, true);
    case NoResponse(parentCancelled, reason, message) =>
      if parentCancelled {
        return Outcome(0, true);
      }
      cache.Evict(p.key);
      conditions.Set(p.conditionType, Down(p, reason, message));
      return Outcome(p.requeueAfter, false);
    case Response(code, message) =>
      if 200 <= code && code < 300 {
        cache.Store(p.key, p.uid, p.probeEndpoint, p.cacheTTL, storedAt);
        conditions.Set(p.conditionType, Healthy(p));
        return Outcome(0, false);
      }
      cache.Evict(p.key);
      conditions.Set(p.conditionType, Down(p, p.unhealthyReason, message));
      return Outcome(p.requeueAfter, false);
  }

  /** Exactly when a configured CR is not probed: its condition is True and its last success
      was of the same UID and endpoint, less than one TTL ago. */
  lemma ServesIff(p: Params, s: State, now: int)
    requires p.endpointConfigured
    ensures !Probes(p, s, now)
            <==> p.conditionType in s.conditions && s.conditions[p.conditionType].status == True
                 && match At(s.entries, p.key)
                    case None => false
                    case Some(e) => e.uid == p.uid && e.endpoint == p.probeEndpoint && now < e.probedAt + p.cacheTTL
  {}

  /** A failed probe: asked, answered in time by anything but a 2xx. */
  predicate Fails(p: Params, s: State, hitAt: int, a: Answer) {
    Probes(p, s, hitAt) && (if a.Response? then a.code < 200 || a.code >= 300 else a.NoResponse? && !a.parentCancelled)
  }

  /** What one pass amounts to. It fails only if it could not ask; then nothing is
      written. A failed probe is forgotten, reported and asked again after the interval; a
      good one, or a hit, is reported as such and returns nothing to wait for. */
  lemma PassAmountsTo(p: Params, s: State, hitAt: int, a: Answer, storedAt: int)
    ensures var s', r := After(p, s, hitAt, a, storedAt), OutcomeOf(p, s, hitAt, a);
            && (forall k :: k != p.key ==> At(s'.entries, k) == At(s.entries, k))
            && (r.err <==> Probes(p, s, hitAt) && (a.NotBuilt? || (a.NoResponse? && a.parentCancelled)))
            && (r.err ==> s' == s && r.requeueAfter == 0)
            && (!r.err ==> p.conditionType in s'.conditions && s'.conditions[p.conditionType].generation == p.generation)
            && (Fails(p, s, hitAt, a) ==>
                  !r.err && r.requeueAfter == p.requeueAfter && p.key !in s'.entries
                  && s'.conditions[p.conditionType].status == False
                  && (a.NoResponse? ==> s'.conditions[p.conditionType].reason == a.reason)
                  && (a.Response? ==> s'.conditions[p.conditionType].reason == p.unhealthyReason))
            && (!p.endpointConfigured ==>
                  s'.entries == s.entries && r.requeueAfter == p.requeueAfter
                  && s'.conditions[p.conditionType].status == False)
            && (!r.err && p.endpointConfigured && !Fails(p, s, hitAt, a) ==>
                  r.requeueAfter == 0 && s'.conditions[p.conditionType].status == True
                  && s'.conditions[p.conditionType].reason == p.healthyReason)
            && (Probes(p, s, hitAt) && Succeeded(a) ==>
                  At(s'.entries, p.key) == Some(Entry(p.uid, p.probeEndpoint, storedAt, p.cacheTTL)))
  {}

  function Scheduled(r: Outcome, entries: Entries, noReprobe: bool, key: Key, now: int): Outcome {
    if r.err || r.requeueAfter != 0 || noReprobe then r
    else match Remaining(entries, key, now)
      case None => r
      case Some(left) => Outcome(if left > 0 then left else SECOND, false)
  }

  /** A converged pass with an entry is always requeued: at the very instant the
      entry expires, or after a second when it already has. Any other result stands. */
  method ScheduleReprobe(r: Outcome, cache: ProbeCache, key: Key, now: int) returns (s: Outcome)
    ensures s == Scheduled(r, cache.entries, cache.noReprobe, key, now)
    ensures r == Outcome(0, false) && !cache.noReprobe && key in cache.entries
            ==> now + s.requeueAfter == var expiry := cache.entries[key].probedAt + cache.entries[key].ttl;
                                        if expiry > now then expiry else now + SECOND
    ensures r != Outcome(0, false) || cache.noReprobe || key !in cache.entries ==> s == r
  {
    if r.err || r.requeueAfter != 0 || cache.noReprobe {
      return r;
    }
    var remaining, ok := cache.ExpiresIn(key, now);
    if !ok {
      return r;
    } else if remaining > 0 {
      return Outcome(remaining, false);
    } else {
      return Outcome(SECOND, false);
    }
  }

  // ---- what a True condition is worth -------------------------------------------------------

  /** A 2xx answer to a GET, as it happened. */
  datatype Success = Success(key: Key, uid: string, endpoint: string, at: int, ttl: int)

  /** The process of one operator: the conditions a pass reads are whatever the API
      server held, so a pass brings its own. */
  datatype Step =
    | Pass(p: Params, conditions: map<string, Condition>, hitAt: int, answer: Answer, storedAt: int)
    | Deleted(key: Key)
    | Restart

  datatype World = World(entries: Entries, clock: int, successes: set<Success>)

  function Begins(w: World, st: Step): State
    requires st.Pass?
  {
    State(w.entries, st.conditions)
  }

  function Record(w: World, st: Step): set<Success>
    requires st.Pass?
  {
    if Probes(st.p, Begins(w, st), st.hitAt) && Succeeded(st.answer)
    then w.successes + {Success(st.p.key, st.p.uid, st.p.probeEndpoint, st.storedAt, st.p.cacheTTL)}
    else w.successes
  }

  function Next(w: World, st: Step): World {
    match st
    case Pass(p, conditions, hitAt, answer, storedAt) =>
      World(After(p, Begins(w, st), hitAt, answer, storedAt).entries, storedAt, Record(w, st))
    case Deleted(key) => w.(entries := w.entries - {key})
    case Restart => w.(entries := map[])
  }

  /** The clock of a pass does not run backwards. */
  predicate InTime(w: World, st: Step) { st.Pass? ==> w.clock <= st.hitAt <= st.storedAt }

  ghost predicate Run(ws: seq<World>, steps: seq<Step>) {
    |ws| == |steps| + 1 && ws[0].entries == map[]
    && forall i {:trigger steps[i]} :: 0 <= i < |steps| ==>
         InTime(ws[i], steps[i]) && ws[i + 1] == Next(ws[i], steps[i])
  }

  predicate Backed(w: World) {
    forall k :: k in w.entries ==>
      w.entries[k].probedAt <= w.clock
      && Success(k, w.entries[k].uid, w.entries[k].endpoint, w.entries[k].probedAt, w.entries[k].ttl) in w.successes
  }

  lemma {:induction false} EveryEntryWasASuccess(ws: seq<World>, steps: seq<Step>, n: nat)
    requires Run(ws, steps) && n <= |steps|
    ensures Backed(ws[n])
  {
    if n > 0 {
      EveryEntryWasASuccess(ws, steps, n - 1);
      assert ws[n] == Next(ws[n - 1], steps[n - 1]);
    }
  }

  /** After any run, of any CRs, with deletions and restarts and any conditions read
      back: a pass that returns no error and leaves its condition True follows a 2xx
      answer for the same CR, UID and endpoint, not in the future and less than the
      pass's own TTL old when the cache was asked, or came just now. */
  lemma TrueFollowsAFreshProbe(ws: seq<World>, steps: seq<Step>, n: nat)
    requires Run(ws, steps) && n < |steps| && steps[n].Pass?
    requires var st := steps[n];
             !OutcomeOf(st.p, Begins(ws[n], st), st.hitAt, st.answer).err
             && IsTrue(st.p, After(st.p, Begins(ws[n], st), st.hitAt, st.answer, st.storedAt))
    ensures var st := steps[n];
            exists x :: x in ws[n + 1].successes
                        && x.key == st.p.key && x.uid == st.p.uid && x.endpoint == st.p.probeEndpoint
                        && (x.at == st.storedAt || 0 <= st.hitAt - x.at < st.p.cacheTTL)
  {
    var st := steps[n];
    EveryEntryWasASuccess(ws, steps, n);
    assert ws[n + 1] == Next(ws[n], st);
    var e := if CacheHit(st.p, Begins(ws[n], st), st.hitAt) then ws[n].entries[st.p.key]
             else Entry(st.p.uid, st.p.probeEndpoint, st.storedAt, st.p.cacheTTL);
    assert Success(st.p.key, e.uid, e.endpoint, e.probedAt, e.ttl) in ws[n + 1].successes;
  }

  // ---- time left after a hit ---------------------------------------------------------------------

  /** Of the cache alone: every hit under a TTL leaves time to expiry exactly when that
      TTL is no longer than the one the entry was stored with. */
  lemma HitLeavesTime(entries: Entries, key: Key, uid: string, endpoint: string, ttl: int)
    requires key in entries && entries[key].uid == uid && entries[key].endpoint == endpoint
    ensures (forall now :: IsHit(entries, key, uid, endpoint, ttl, now) ==> Remaining(entries, key, now).value > 0)
            <==> ttl <= entries[key].ttl
  {
    var e := entries[key];
    if ttl > e.ttl {
      assert IsHit(entries, key, uid, endpoint, ttl, e.probedAt + e.ttl);
    }
  }

  /** The cache takes the TTL from its caller on every call; one that raised it would
      hit an expired entry. No operator does: they all pass one constant. */
  lemma RaisedTTLHitsExpired()
    ensures var entries := map["cr" := Entry("u", "e", 0, 30 * SECOND)];
            IsHit(entries, "cr", "u", "e", 60 * SECOND, 30 * SECOND)
            && Remaining(entries, "cr", 30 * SECOND) == Some(0)
  {}

  predicate OneTTL(steps: seq<Step>, key: Key, ttl: int) {
    forall i :: 0 <= i < |steps| && steps[i].Pass? && steps[i].p.key == key ==> steps[i].p.cacheTTL == ttl
  }

  lemma {:induction false} StoredUnderOneTTL(ws: seq<World>, steps: seq<Step>, key: Key, ttl: int, n: nat)
    requires Run(ws, steps) && n <= |steps| && OneTTL(steps, key, ttl)
    ensures key in ws[n].entries ==> ws[n].entries[key].ttl == ttl
  {
    if n > 0 {
      StoredUnderOneTTL(ws, steps, key, ttl, n - 1);
      assert ws[n] == Next(ws[n - 1], steps[n - 1]);
    }
  }

  /** In a run that uses one TTL for a CR, as every operator does, a cache hit
      always leaves positive time to expiry at that instant. */
  lemma HitAlwaysLeavesTime(ws: seq<World>, steps: seq<Step>, n: nat, ttl: int)
    requires Run(ws, steps) && n < |steps| && steps[n].Pass? && OneTTL(steps, steps[n].p.key, ttl)
    requires CacheHit(steps[n].p, Begins(ws[n], steps[n]), steps[n].hitAt)
    ensures Remaining(ws[n].entries, steps[n].p.key, steps[n].hitAt).value > 0
  {
    StoredUnderOneTTL(ws, steps, steps[n].p.key, ttl, n);
    var p := steps[n].p;
    HitLeavesTime(ws[n].entries, p.key, p.uid, p.probeEndpoint, p.cacheTTL);
  }

  // ---- how far apart probes are ------------------------------------------------------------------

  /** One pass of a CR: when it asked the cache, stored, and scheduled the next. */
  datatype Timed = Timed(conditions: map<string, Condition>, answer: Answer, start: int, stored: int, end: int)

  predicate Probed(p: Params, before: Entries, x: Timed) { Probes(p, State(before, x.conditions), x.start) }

  /** The pass returned no error and a zero result and left the condition True.
      Only the entry of this CR is followed; the rest of the cache may change. */
  predicate Converged(p: Params, before: Entries, x: Timed, after: Entries) {
    var s := State(before, x.conditions);
    x.start <= x.stored <= x.end
    && OutcomeOf(p, s, x.start, x.answer) == Outcome(0, false)
    && IsTrue(p, After(p, s, x.start, x.answer, x.stored))
    && At(after, p.key) == At(After(p, s, x.start, x.answer, x.stored).entries, p.key)
  }

  /** The next pass starts after this one ended, no later than it was scheduled; an
      event may bring it earlier. */
  predicate OnSchedule(p: Params, x: Timed, after: Entries, next: int) {
    x.end <= next <= x.end + Scheduled(Outcome(0, false), after, false, p.key, x.end).requeueAfter
  }

  predicate ReadyAt(p: Params, es: seq<Entries>, passes: seq<Timed>, d: nat, i: int)
    requires 0 <= i < |passes| - 1 && |passes| < |es|
  {
    Converged(p, es[i], passes[i], es[i + 1]) && passes[i].end <= passes[i].start + d
    && OnSchedule(p, passes[i], es[i + 1], passes[i + 1].start)
  }

  /** A CR that stays Ready for n passes of at most d each, every next one on time. */
  ghost predicate ReadyRun(p: Params, es: seq<Entries>, passes: seq<Timed>, d: nat, n: nat) {
    n < |passes| < |es| && (forall i {:trigger ReadyAt(p, es, passes, d, i)} :: 0 <= i < n ==> ReadyAt(p, es, passes, d, i))
  }

  /** What one pass tells the next: whether it probed, its times, and the probe time
      of the entry it leaves. */
  datatype Fact = Fact(probed: bool, start: int, stored: int, end: int, left: int)

  predicate FollowsAt(fs: seq<Fact>, ttl: int, d: nat, k: int)
    requires 0 <= k < |fs| - 1
  {
    Follows(ttl, d, fs[k], fs[k + 1])
  }

  predicate Follows(ttl: int, d: nat, f: Fact, g: Fact) {
    f.start <= f.stored && f.end <= f.start + d
    && (f.probed ==> f.left == f.stored)
    && (!f.probed ==> f.start < f.left + ttl)
    && (!g.probed ==> g.left == f.left)
    && g.start <= (if f.end < f.left + ttl then f.left + ttl else f.end + SECOND)
  }

  function FactOf(p: Params, before: Entries, x: Timed): Fact {
    var probed := Probed(p, before, x);
    Fact(probed, x.start, x.stored, x.end,
         if !probed && p.key in before then before[p.key].probedAt else x.stored)
  }

  lemma EntryLeft(p: Params, before: Entries, x: Timed, after: Entries)
    requires Converged(p, before, x, after)
    requires Probed(p, before, x) || before[p.key].ttl == p.cacheTTL
    ensures p.key in after && after[p.key].probedAt == FactOf(p, before, x).left && after[p.key].ttl == p.cacheTTL
  {}

  lemma PassFollows(p: Params, before: Entries, x: Timed, after: Entries, y: Timed, d: nat)
    requires Converged(p, before, x, after) && OnSchedule(p, x, after, y.start) && x.end <= x.start + d
    requires Probed(p, before, x) || before[p.key].ttl == p.cacheTTL
    ensures Follows(p.cacheTTL, d, FactOf(p, before, x), FactOf(p, after, y))
  {
    EntryLeft(p, before, x, after);
  }

  lemma {:induction false} Timeline(p: Params, es: seq<Entries>, passes: seq<Timed>, d: nat, i: nat, n: nat)
    requires ReadyRun(p, es, passes, d, n) && i < n && Probed(p, es[i], passes[i])
    ensures Follows(p.cacheTTL, d, FactOf(p, es[n - 1], passes[n - 1]), FactOf(p, es[n], passes[n]))
    ensures p.key in es[n] && es[n][p.key].ttl == p.cacheTTL
    decreases n
  {
    var x := passes[n - 1];
    assert ReadyAt(p, es, passes, d, n - 1);
    if i < n - 1 {
      Timeline(p, es, passes, d, i, n - 1);
    }
    EntryLeft(p, es[n - 1], x, es[n]);
    PassFollows(p, es[n - 1], x, es[n], passes[n], d);
  }

  lemma {:induction false} Bounded(fs: seq<Fact>, ttl: int, d: nat)
    requires |fs| >= 2 && fs[0].probed && (forall k :: 0 < k < |fs| - 1 ==> !fs[k].probed)
    requires forall k {:trigger FollowsAt(fs, ttl, d, k)} :: 0 <= k < |fs| - 1 ==> FollowsAt(fs, ttl, d, k)
    requires ttl >= 0
    ensures fs[|fs| - 2].left == fs[0].stored
    ensures |fs| > 2 ==> fs[|fs| - 2].start < fs[0].stored + ttl
    ensures fs[|fs| - 1].start <= fs[0].stored + ttl + d + SECOND
    ensures fs[|fs| - 1].start <= if fs[|fs| - 2].end < fs[0].stored + ttl then fs[0].stored + ttl else fs[|fs| - 2].end + SECOND
  {
    var n := |fs| - 1;
    assert FollowsAt(fs, ttl, d, n - 1);
    if n > 1 {
      forall k {:trigger FollowsAt(fs[..n], ttl, d, k)} | 0 <= k < n - 1 ensures FollowsAt(fs[..n], ttl, d, k) {
        assert FollowsAt(fs, ttl, d, k);
      }
      Bounded(fs[..n], ttl, d);
      assert FollowsAt(fs, ttl, d, n - 2);
    }
  }

  /** Staleness is bounded: counted from the last good probe of a Ready CR, every
      pass that serves from the cache starts inside the TTL, and the pass that probes
      again starts at most the TTL, one pass and one second later; inside the TTL
      when the pass before it ended before the entry expired. */
  lemma ProbesAreClose(p: Params, es: seq<Entries>, passes: seq<Timed>, d: nat, i: nat, n: nat)
    requires ReadyRun(p, es, passes, d, n) && i < n && Probed(p, es[i], passes[i]) && p.cacheTTL >= 0
    requires forall k :: i < k < n ==> !Probed(p, es[k], passes[k])
    ensures passes[n].start <= passes[i].stored + p.cacheTTL + d + SECOND
    ensures passes[n].start <= if passes[n - 1].end < passes[i].stored + p.cacheTTL then passes[i].stored + p.cacheTTL
                               else passes[n - 1].end + SECOND
    ensures i < n - 1 ==> passes[n - 1].start < passes[i].stored + p.cacheTTL
  {
    var fs := seq(n - i + 1, k requires 0 <= k <= n - i => FactOf(p, es[i + k], passes[i + k]));
    forall k {:trigger FollowsAt(fs, p.cacheTTL, d, k)} | 0 <= k < |fs| - 1 ensures FollowsAt(fs, p.cacheTTL, d, k) {
      Timeline(p, es, passes, d, i, i + k + 1);
    }
    assert fs[0] == FactOf(p, es[i], passes[i]);
    assert fs[n - i] == FactOf(p, es[n], passes[n]) && fs[n - i - 1] == FactOf(p, es[n - 1], passes[n - 1]);
    forall k | 0 < k < |fs| - 1 ensures !fs[k].probed {
      assert fs[k] == FactOf(p, es[i + k], passes[i + k]);
      assert !Probed(p, es[i + k], passes[i + k]);
    }
    Bounded(fs, p.cacheTTL, d);
  }

  /** A pass that ends at x.end with the entry left may be followed by one that starts
      later than the TTL and one pass of d exactly when it ends after the entry expired
      and the minimum requeue of a second then carries the next start past that bound. */
  lemma LateStartIff(p: Params, x: Timed, after: Entries, d: nat)
    requires p.key in after
    ensures var expiry := after[p.key].probedAt + after[p.key].ttl;
            (exists next :: OnSchedule(p, x, after, next) && next > expiry + d)
            <==> x.end >= expiry && x.end + SECOND > expiry + d
  {
    var expiry := after[p.key].probedAt + after[p.key].ttl;
    if x.end >= expiry && x.end + SECOND > expiry + d {
      assert OnSchedule(p, x, after, x.end + SECOND);
    }
  }

  /** So in a run of a Ready CR a probe starts past that bound only behind a pass that
      ended late by more than the pass time less a second. */
  lemma LateProbeEndedLate(p: Params, es: seq<Entries>, passes: seq<Timed>, d: nat, i: nat, n: nat)
    requires ReadyRun(p, es, passes, d, n) && i < n && Probed(p, es[i], passes[i])
    requires forall k :: i < k < n ==> !Probed(p, es[k], passes[k])
    requires p.cacheTTL >= 0 && passes[n].start > passes[i].stored + p.cacheTTL + d
    ensures passes[n - 1].end >= passes[i].stored + p.cacheTTL
    ensures passes[n - 1].end + SECOND > passes[i].stored + p.cacheTTL + d
  {
    ProbesAreClose(p, es, passes, d, i, n);
  }

  /** The last second is real: a cache hit just before expiry whose pass ends at
      expiry postpones the next probe by the minimum requeue. */
  lemma LateEndCostsASecond()
    ensures exists p: Params, es: seq<Entries>, passes: seq<Timed> ::
              ReadyRun(p, es, passes, 1, 2) && Probed(p, es[0], passes[0]) && !Probed(p, es[1], passes[1])
              && Probed(p, es[2], passes[2])
              && passes[2].start == passes[0].stored + p.cacheTTL + SECOND
  {
    var ttl := 30 * SECOND;
    var p := Params("cr", "u", "API", true, "e", 1, "APIReady", "Healthy", "Unhealthy", ttl, 10 * SECOND);
    var stored := map["cr" := Entry("u", "e", 0, ttl)];
    var es: seq<Entries> := [map[], stored, stored, stored];
    var ready := map["APIReady" := Healthy(p)];
    var ok := Response(200, "");
    var passes := [Timed(map[], ok, 0, 0, 0), Timed(ready, ok, ttl - 1, ttl - 1, ttl),
                   Timed(ready, ok, ttl + SECOND, ttl + SECOND, ttl + SECOND)];
    assert ReadyAt(p, es, passes, 1, 0) && ReadyAt(p, es, passes, 1, 1);
    assert ReadyRun(p, es, passes, 1, 2);
  }
}
