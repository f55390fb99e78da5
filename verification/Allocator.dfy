/** Placement of a build: which stores can take it, in which order, and which one gets it. */
module Allocator {
  import opened Optional
  import Retries

  type StoreId = Retries.StoreId

  datatype Pressure = Pressure(cpu: real, io: real)

  datatype Memory = Memory(total: int, availableKb: int)

  datatype Store = Store(
    id: StoreId, healthy: bool, draining: bool, noSchedule: bool, supports: bool, lastResort: bool,
    cpu: Option<real>, psi: Option<Pressure>, cores: Option<real>, memory: Option<Memory>,
    freeBytes: Option<int>, diskFullUntil: real, penalty: real, priority: real)

  datatype Settings = Settings(
    cpuIdleWeight: real, cpuPressurePenalty: real, ioPressurePenalty: real, unmonitoredPenalty: real,
    perCoreLoad: bool, concurrencyPenalty: real, herdPenalty: real, timePenalty: Option<real>,
    transferPenalty: real, cpuReferenceSeconds: Option<real>, minScheduleScore: real,
    minFreeBytes: int, localWinsTies: bool)

  /** One pass over one build: what it has failed on, and what is known of the load. */
  datatype Pass = Pass(
    settings: Settings, attempts: Retries.Attempts, now: real,
    running: map<StoreId, nat>, placed: map<StoreId, nat>, transferSeconds: map<StoreId, real>,
    expectedSeconds: map<StoreId, real>, expectedBuildSeconds: Option<real>)

  // ------------------------------------------------------------------- the score

  /** The load of a store, and the cost of this build on it. */
  datatype Score = Score(load: real, passed: bool, final: real)

  function Points(percent: real, weight: real): real {
    -percent / 100.0 * weight
  }

  function IdlePoints(s: Settings, store: Store): real {
    if store.cpu.None? then 0.0 else (1.0 - store.cpu.value / 100.0) * s.cpuIdleWeight
  }

  function Pressures(s: Settings, store: Store): (p: (real, real)) {
    if store.psi.None? then (0.0, 0.0)
    else (Points(store.psi.value.cpu, s.cpuPressurePenalty), Points(store.psi.value.io, s.ioPressurePenalty))
  }

  predicate Monitored(store: Store) {
    store.cpu.Some? || store.psi.Some?
  }

  /** What a number of builds costs: by the core where that is known, or a flat penalty each. */
  function Crowd(s: Settings, store: Store, builds: nat, penalty: real): real {
    if s.perCoreLoad && store.cores.Some? && store.cores.value != 0.0
    then -(builds as real) / store.cores.value * s.cpuIdleWeight
    else -(builds as real) * penalty
  }

  function CostPoints(s: Settings, transfer: Option<real>, expected: Option<real>): real {
    if s.timePenalty.Some? && expected.Some? then -expected.value * s.timePenalty.value
    else if transfer.Some? then -transfer.value * s.transferPenalty
    else 0.0
  }

  function CpuScale(s: Settings, expectedBuild: Option<real>): real {
    if s.cpuReferenceSeconds.Some? && s.cpuReferenceSeconds.value != 0.0 && expectedBuild.Some? then
      var share := expectedBuild.value / s.cpuReferenceSeconds.value;
      if share < 1.0 then share else 1.0
    else 1.0
  }

  function Times(a: real, b: real): real {
    a * b
  }

  /** The load, with the part that a short build does not feel scaled down. */
  function Ordered(load: real, scale: real, part: real): real {
    load - Times(1.0 - scale, part)
  }

  function ScoreStore(s: Settings, store: Store, inFlight: nat, placed: nat, transfer: Option<real>,
                      expected: Option<real>, expectedBuild: Option<real>): (r: Score)
  {
    var idle := IdlePoints(s, store);
    var (cpuPsi, ioPsi) := Pressures(s, store);
    var unmonitored := if Monitored(store) then 0.0 else -s.unmonitoredPenalty;
    var concurrency := Crowd(s, store, inFlight, s.concurrencyPenalty);
    var herd := Crowd(s, store, placed, s.herdPenalty);
    var load := idle + cpuPsi + ioPsi + unmonitored + concurrency + herd - store.penalty;
    var ordered := Ordered(load, CpuScale(s, expectedBuild), idle + cpuPsi + herd);
    Score(load, load >= s.minScheduleScore || !Monitored(store),
          Times(ordered + CostPoints(s, transfer, expected), store.priority))
  }

  function Get(m: map<StoreId, real>, id: StoreId): Option<real> {
    if id in m then Some(m[id]) else None
  }

  function Count(m: map<StoreId, nat>, id: StoreId): nat {
    if id in m then m[id] else 0
  }

  function ScoreIn(p: Pass, store: Store): (r: Score) {
    ScoreStore(p.settings, store, Count(p.running, store.id), Count(p.placed, store.id),
               Get(p.transferSeconds, store.id), Get(p.expectedSeconds, store.id), p.expectedBuildSeconds)
  }

  lemma TimesGrows(a: real, b: real, c: real)
    requires a <= b && c >= 0.0
    ensures Times(a, c) <= Times(b, c)
  {
  }

  lemma TimesRises(a: real, b: real, c: real)
    requires a < b && c > 0.0
    ensures Times(a, c) < Times(b, c)
  {
  }

  lemma CrowdFalls(s: Settings, store: Store, n: nat, m: nat, penalty: real)
    requires n <= m && penalty >= 0.0 && s.cpuIdleWeight >= 0.0 && (store.cores.Some? ==> store.cores.value >= 0.0)
    ensures Crowd(s, store, m, penalty) <= Crowd(s, store, n, penalty)
  {
    TimesGrows(-(m as real), -(n as real), penalty);
    if store.cores.Some? && store.cores.value != 0.0 {
      var c := store.cores.value;
      assert -(m as real) / c <= -(n as real) / c;
      TimesGrows(-(m as real) / c, -(n as real) / c, s.cpuIdleWeight);
    }
  }

  /** A fall of the load, of which a share is in the scaled part, is a fall of the final score. */
  lemma FinalFalls(load: real, load': real, scale: real, part: real, part': real, cost: real, priority: real)
    requires scale >= 0.0 && priority >= 0.0 && load - load' >= part - part' >= 0.0
    ensures Times(Ordered(load', scale, part') + cost, priority) <= Times(Ordered(load, scale, part) + cost, priority)
  {
    assert (1.0 - scale) * part' == (1.0 - scale) * part - (part - part') + scale * (part - part');
    TimesGrows(0.0, part - part', scale);
    TimesGrows(Ordered(load', scale, part') + cost, Ordered(load, scale, part) + cost, priority);
  }

  /** What the order of a build scales: the points of the CPU and of the herd. */
  function ScaledPart(s: Settings, store: Store, placed: nat): real {
    IdlePoints(s, store) + Pressures(s, store).0 + Crowd(s, store, placed, s.herdPenalty)
  }

  lemma FinalOf(s: Settings, store: Store, n: nat, m: nat, t: Option<real>, e: Option<real>, b: Option<real>)
    ensures var r := ScoreStore(s, store, n, m, t, e, b);
            r.final == Times(Ordered(r.load, CpuScale(s, b), ScaledPart(s, store, m)) + CostPoints(s, t, e), store.priority)
  {
  }

  /**
    More builds on a store, running or just placed, never raise its score and never let it pass; what the build
    itself would cost there decides nothing about passing; and a store that is not monitored passes.
   */
  lemma MoreLoadNeverHelps(s: Settings, store: Store, n: nat, m: nat, n': nat, m': nat,
                           t: Option<real>, e: Option<real>, b: Option<real>, t': Option<real>, e': Option<real>)
    requires n <= n' && m <= m'
    requires s.concurrencyPenalty >= 0.0 && s.herdPenalty >= 0.0 && s.cpuIdleWeight >= 0.0 && store.priority >= 0.0
    requires (store.cores.Some? ==> store.cores.value >= 0.0) && CpuScale(s, b) >= 0.0
    ensures var less, more := ScoreStore(s, store, n, m, t, e, b), ScoreStore(s, store, n', m', t, e, b);
            more.load <= less.load && more.final <= less.final
    ensures ScoreStore(s, store, n', m', t', e', b).passed ==> ScoreStore(s, store, n, m, t, e, b).passed
    ensures !Monitored(store) ==> ScoreStore(s, store, n, m, t, e, b).passed
  {
    CrowdFalls(s, store, n, n', s.concurrencyPenalty);
    CrowdFalls(s, store, m, m', s.herdPenalty);
    var less, more := ScoreStore(s, store, n, m, t, e, b), ScoreStore(s, store, n', m', t, e, b);
    FinalOf(s, store, n, m, t, e, b);
    FinalOf(s, store, n', m', t, e, b);
    FinalFalls(less.load, more.load, CpuScale(s, b), ScaledPart(s, store, m), ScaledPart(s, store, m'),
               CostPoints(s, t, e), store.priority);
  }

  lemma PointsFall(x: real, y: real, weight: real)
    requires x <= y && weight >= 0.0
    ensures Points(y, weight) <= Points(x, weight)
  {
    TimesGrows(-y / 100.0, -x / 100.0, weight);
  }

  lemma IdleFalls(s: Settings, store: Store, cpu: real)
    requires s.cpuIdleWeight >= 0.0 && store.cpu.Some? && store.cpu.value <= cpu
    ensures IdlePoints(s, store.(cpu := Some(cpu))) <= IdlePoints(s, store)
  {
    TimesGrows(1.0 - cpu / 100.0, 1.0 - store.cpu.value / 100.0, s.cpuIdleWeight);
  }

  /** A busier CPU and more pressure on a monitored store never raise its score. */
  lemma PressureNeverHelps(s: Settings, store: Store, busier: Store, n: nat, m: nat,
                           t: Option<real>, e: Option<real>, b: Option<real>)
    requires s.cpuIdleWeight >= 0.0 && s.cpuPressurePenalty >= 0.0 && s.ioPressurePenalty >= 0.0
    requires store.priority >= 0.0 && CpuScale(s, b) >= 0.0
    requires store.cpu.Some? && store.psi.Some? && busier.cpu.Some? && busier.psi.Some?
    requires busier == store.(cpu := busier.cpu, psi := busier.psi) && store.cpu.value <= busier.cpu.value
    requires store.psi.value.cpu <= busier.psi.value.cpu && store.psi.value.io <= busier.psi.value.io
    ensures var less, more := ScoreStore(s, store, n, m, t, e, b), ScoreStore(s, busier, n, m, t, e, b);
            more.load <= less.load && more.final <= less.final
  {
    IdleFalls(s, store, busier.cpu.value);
    assert IdlePoints(s, busier) == IdlePoints(s, store.(cpu := busier.cpu));
    PointsFall(store.psi.value.cpu, busier.psi.value.cpu, s.cpuPressurePenalty);
    PointsFall(store.psi.value.io, busier.psi.value.io, s.ioPressurePenalty);
    var less, more := ScoreStore(s, store, n, m, t, e, b), ScoreStore(s, busier, n, m, t, e, b);
    FinalOf(s, store, n, m, t, e, b);
    FinalOf(s, busier, n, m, t, e, b);
    LoadFalls(s, store, busier, n, m, t, e, b);
    FinalFalls(less.load, more.load, CpuScale(s, b), ScaledPart(s, store, m), ScaledPart(s, busier, m),
               CostPoints(s, t, e), store.priority);
  }

  lemma LoadFalls(s: Settings, store: Store, busier: Store, n: nat, m: nat,
                  t: Option<real>, e: Option<real>, b: Option<real>)
    requires store.cpu.Some? && busier.cpu.Some? && busier == store.(cpu := busier.cpu, psi := busier.psi)
    requires IdlePoints(s, busier) <= IdlePoints(s, store)
    requires Pressures(s, busier).0 <= Pressures(s, store).0 && Pressures(s, busier).1 <= Pressures(s, store).1
    ensures ScoreStore(s, store, n, m, t, e, b).load - ScoreStore(s, busier, n, m, t, e, b).load
         >= ScaledPart(s, store, m) - ScaledPart(s, busier, m) >= 0.0
  {
    assert Crowd(s, busier, m, s.herdPenalty) == Crowd(s, store, m, s.herdPenalty);
    assert Crowd(s, busier, n, s.concurrencyPenalty) == Crowd(s, store, n, s.concurrencyPenalty);
  }

  // What each figure is worth, point by point: the load and the final score, and no more than they say.

  lemma TimesLess(a: real, d: real, c: real)
    ensures Times(a - d, c) == Times(a, c) - d * c
  {
  }

  /** What the build would cost on a store: its time where that counts and is known, or the transfer. */
  function Cost(s: Settings, t: Option<real>, e: Option<real>): real {
    if s.timePenalty.Some? && e.Some? then e.value * s.timePenalty.value
    else if t.Some? then t.value * s.transferPenalty
    else 0.0
  }

  lemma CostIsTaken(s: Settings, t: Option<real>, e: Option<real>)
    ensures CostPoints(s, t, e) == -Cost(s, t, e)
  {
  }

  /** That cost comes off the final score, times the priority, and leaves the load alone. */
  lemma CostComesOff(s: Settings, store: Store, n: nat, m: nat, t: Option<real>, e: Option<real>, b: Option<real>)
    ensures var free, dear := ScoreStore(s, store, n, m, None, None, b), ScoreStore(s, store, n, m, t, e, b);
            && dear.load == free.load && dear.passed == free.passed
            && dear.final == free.final - Times(Cost(s, t, e), store.priority)
  {
    CostIsTaken(s, t, e);
    FinalOf(s, store, n, m, None, None, b);
    FinalOf(s, store, n, m, t, e, b);
    TimesLess(Ordered(ScoreStore(s, store, n, m, t, e, b).load, CpuScale(s, b), ScaledPart(s, store, m)), Cost(s, t, e),
              store.priority);
  }

  /** No figure is known now that was not known before, and none has grown. */
  ghost predicate NoMore(a: Option<real>, b: Option<real>) {
    a.Some? == b.Some? && (a.Some? ==> a.value <= b.value)
  }

  /** A longer transfer, or a longer expected time where time counts, never raises the score. */
  lemma CostNeverHelps(s: Settings, store: Store, n: nat, m: nat, b: Option<real>,
                       t: Option<real>, e: Option<real>, t': Option<real>, e': Option<real>)
    requires NoMore(t, t') && NoMore(e, e') && store.priority >= 0.0
    requires s.transferPenalty >= 0.0 && (s.timePenalty.Some? ==> s.timePenalty.value >= 0.0)
    ensures var less, more := ScoreStore(s, store, n, m, t, e, b), ScoreStore(s, store, n, m, t', e', b);
            more.load == less.load && more.final <= less.final
  {
    CostComesOff(s, store, n, m, t, e, b);
    CostComesOff(s, store, n, m, t', e', b);
    assert Cost(s, t, e) <= Cost(s, t', e') by {
      if s.timePenalty.Some? && e.Some? {
        TimesGrows(e.value, e'.value, s.timePenalty.value);
      } else if t.Some? {
        TimesGrows(t.value, t'.value, s.transferPenalty);
      }
    }
    TimesGrows(Cost(s, t, e), Cost(s, t', e'), store.priority);
  }

  /** The part of the load that the order never scales loses `d` points, and so does the final score, times the priority. */
  lemma UnscaledLoss(load: real, d: real, scale: real, part: real, cost: real, priority: real)
    ensures Times(Ordered(load - d, scale, part) + cost, priority) == Times(Ordered(load, scale, part) + cost, priority) - d * priority
  {
    TimesLess(Ordered(load, scale, part) + cost, d, priority);
  }

  /** The scaled part loses `d` points: the final score loses the share of them that the build feels. */
  lemma ScaledLoss(load: real, d: real, scale: real, part: real, cost: real, priority: real)
    ensures Times(Ordered(load - d, scale, part - d) + cost, priority)
         == Times(Ordered(load, scale, part) + cost, priority) - Times(Times(scale, d), priority)
  {
    assert Ordered(load - d, scale, part - d) == Ordered(load, scale, part) - scale * d by {
      assert (1.0 - scale) * (part - d) == (1.0 - scale) * part - d + scale * d;
    }
    TimesLess(Ordered(load, scale, part) + cost, Times(scale, d), priority);
  }

  /** Two stores with the same figures have the same points. */
  lemma SameFigures(s: Settings, store: Store, other: Store, n: nat, m: nat)
    requires other.cpu == store.cpu && other.psi == store.psi && other.cores == store.cores
    ensures IdlePoints(s, other) == IdlePoints(s, store) && Pressures(s, other) == Pressures(s, store)
    ensures Crowd(s, other, n, s.concurrencyPenalty) == Crowd(s, store, n, s.concurrencyPenalty)
    ensures Crowd(s, other, m, s.herdPenalty) == Crowd(s, store, m, s.herdPenalty)
  {
  }

  lemma PenaltyLoad(s: Settings, store: Store, d: real, n: nat, m: nat, t: Option<real>, e: Option<real>, b: Option<real>)
    ensures var other := store.(penalty := store.penalty + d);
            && ScoreStore(s, other, n, m, t, e, b).load == ScoreStore(s, store, n, m, t, e, b).load - d
            && ScaledPart(s, other, m) == ScaledPart(s, store, m)
  {
    SameFigures(s, store, store.(penalty := store.penalty + d), n, m);
  }

  /** A point of penalty costs a point. */
  lemma PenaltyComesOff(s: Settings, store: Store, d: real, n: nat, m: nat, t: Option<real>, e: Option<real>, b: Option<real>)
    ensures var less, more := ScoreStore(s, store, n, m, t, e, b),
                              ScoreStore(s, store.(penalty := store.penalty + d), n, m, t, e, b);
            more.load == less.load - d && more.final == less.final - d * store.priority
  {
    PenaltyLoad(s, store, d, n, m, t, e, b);
    FinalOf(s, store, n, m, t, e, b);
    FinalOf(s, store.(penalty := store.penalty + d), n, m, t, e, b);
    UnscaledLoss(ScoreStore(s, store, n, m, t, e, b).load, d, CpuScale(s, b), ScaledPart(s, store, m),
                 CostPoints(s, t, e), store.priority);
  }

  function UnmonitoredLoss(store: Store, d: real): real {
    if store.cpu.None? && store.psi.None? then d else 0.0
  }

  lemma UnmonitoredRest(s: Settings, store: Store, d: real, n: nat, m: nat, t: Option<real>, e: Option<real>, b: Option<real>)
    ensures var other := s.(unmonitoredPenalty := s.unmonitoredPenalty + d);
            && IdlePoints(other, store) == IdlePoints(s, store) && Pressures(other, store) == Pressures(s, store)
            && Crowd(other, store, n, other.concurrencyPenalty) == Crowd(s, store, n, s.concurrencyPenalty)
            && Crowd(other, store, m, other.herdPenalty) == Crowd(s, store, m, s.herdPenalty)
            && CpuScale(other, b) == CpuScale(s, b) && CostPoints(other, t, e) == CostPoints(s, t, e)
  {
  }

  lemma UnmonitoredLoad(s: Settings, store: Store, d: real, n: nat, m: nat, t: Option<real>, e: Option<real>, b: Option<real>)
    ensures var other := s.(unmonitoredPenalty := s.unmonitoredPenalty + d);
            ScoreStore(other, store, n, m, t, e, b).load
            == ScoreStore(s, store, n, m, t, e, b).load - UnmonitoredLoss(store, d)
  {
    UnmonitoredRest(s, store, d, n, m, t, e, b);
  }

  /** The penalty for no figures falls on a store that is not monitored, and on no other. */
  lemma UnmonitoredComesOff(s: Settings, store: Store, d: real, n: nat, m: nat, t: Option<real>, e: Option<real>, b: Option<real>)
    ensures var less, more := ScoreStore(s, store, n, m, t, e, b),
                              ScoreStore(s.(unmonitoredPenalty := s.unmonitoredPenalty + d), store, n, m, t, e, b);
            var loss := UnmonitoredLoss(store, d);
            more.load == less.load - loss && more.final == less.final - loss * store.priority
  {
    UnmonitoredLoad(s, store, d, n, m, t, e, b);
    UnmonitoredRest(s, store, d, n, m, t, e, b);
    FinalOf(s, store, n, m, t, e, b);
    FinalOf(s.(unmonitoredPenalty := s.unmonitoredPenalty + d), store, n, m, t, e, b);
    UnscaledLoss(ScoreStore(s, store, n, m, t, e, b).load, UnmonitoredLoss(store, d), CpuScale(s, b),
                 ScaledPart(s, store, m), CostPoints(s, t, e), store.priority);
  }

  /** What one build more costs: a core's share of the CPU's weight, or the flat penalty. */
  function BuildPoints(s: Settings, store: Store, penalty: real): real {
    if s.perCoreLoad && store.cores.Some? && store.cores.value != 0.0 then s.cpuIdleWeight / store.cores.value else penalty
  }

  lemma CrowdGrows(s: Settings, store: Store, n: nat, penalty: real)
    ensures Crowd(s, store, 0, penalty) == 0.0
    ensures Crowd(s, store, n + 1, penalty) == Crowd(s, store, n, penalty) - BuildPoints(s, store, penalty)
  {
    if s.perCoreLoad && store.cores.Some? && store.cores.value != 0.0 {
      var c, w := store.cores.value, s.cpuIdleWeight;
      assert -((n + 1) as real) / c * w == -(n as real) / c * w - w / c;
    } else {
      assert -((n + 1) as real) * penalty == -(n as real) * penalty - penalty;
    }
  }

  lemma RunningLoad(s: Settings, store: Store, n: nat, m: nat, t: Option<real>, e: Option<real>, b: Option<real>)
    ensures ScoreStore(s, store, n + 1, m, t, e, b).load
         == ScoreStore(s, store, n, m, t, e, b).load - BuildPoints(s, store, s.concurrencyPenalty)
  {
    CrowdGrows(s, store, n, s.concurrencyPenalty);
  }

  lemma PlacedLoad(s: Settings, store: Store, n: nat, m: nat, t: Option<real>, e: Option<real>, b: Option<real>)
    ensures ScoreStore(s, store, n, m + 1, t, e, b).load
         == ScoreStore(s, store, n, m, t, e, b).load - BuildPoints(s, store, s.herdPenalty)
    ensures ScaledPart(s, store, m + 1) == ScaledPart(s, store, m) - BuildPoints(s, store, s.herdPenalty)
  {
    CrowdGrows(s, store, m, s.herdPenalty);
  }

  /** A build that runs costs its points in full. */
  lemma OneMoreRunning(s: Settings, store: Store, n: nat, m: nat, t: Option<real>, e: Option<real>, b: Option<real>)
    ensures var less, more := ScoreStore(s, store, n, m, t, e, b), ScoreStore(s, store, n + 1, m, t, e, b);
            var d := BuildPoints(s, store, s.concurrencyPenalty);
            more.load == less.load - d && more.final == less.final - d * store.priority
  {
    RunningLoad(s, store, n, m, t, e, b);
    FinalOf(s, store, n, m, t, e, b);
    FinalOf(s, store, n + 1, m, t, e, b);
    UnscaledLoss(ScoreStore(s, store, n, m, t, e, b).load, BuildPoints(s, store, s.concurrencyPenalty), CpuScale(s, b),
                 ScaledPart(s, store, m), CostPoints(s, t, e), store.priority);
  }

  /** One placed in this pass costs, in the order, the share of its points that the new build feels. */
  lemma OneMorePlaced(s: Settings, store: Store, n: nat, m: nat, t: Option<real>, e: Option<real>, b: Option<real>)
    ensures var less, more := ScoreStore(s, store, n, m, t, e, b), ScoreStore(s, store, n, m + 1, t, e, b);
            var d := BuildPoints(s, store, s.herdPenalty);
            more.load == less.load - d && more.final == less.final - Times(Times(CpuScale(s, b), d), store.priority)
  {
    PlacedLoad(s, store, n, m, t, e, b);
    FinalOf(s, store, n, m, t, e, b);
    FinalOf(s, store, n, m + 1, t, e, b);
    ScaledLoss(ScoreStore(s, store, n, m, t, e, b).load, BuildPoints(s, store, s.herdPenalty), CpuScale(s, b),
               ScaledPart(s, store, m), CostPoints(s, t, e), store.priority);
  }

  /** Of two counts of running builds the lower scores higher, where a build costs anything. */
  lemma {:induction false} FewerRunningScoreHigher(s: Settings, store: Store, n: nat, n': nat, m: nat,
                                                   t: Option<real>, e: Option<real>, b: Option<real>)
    requires n < n' && BuildPoints(s, store, s.concurrencyPenalty) > 0.0 && store.priority > 0.0
    ensures ScoreStore(s, store, n', m, t, e, b).final < ScoreStore(s, store, n, m, t, e, b).final
    decreases n'
  {
    OneMoreRunning(s, store, n' - 1, m, t, e, b);
    assert BuildPoints(s, store, s.concurrencyPenalty) * store.priority > 0.0;
    if n < n' - 1 {
      FewerRunningScoreHigher(s, store, n, n' - 1, m, t, e, b);
    }
  }

  lemma SameCrowd(s: Settings, store: Store, other: Store, n: nat, penalty: real)
    requires other.cores == store.cores
    ensures Crowd(s, other, n, penalty) == Crowd(s, store, n, penalty)
  {
  }

  /** Two stores with the same cores, priority, penalty and kind of figures: the loads differ as their figures do. */
  lemma LoadDiffers(s: Settings, store: Store, other: Store, n: nat, m: nat, t: Option<real>, e: Option<real>, b: Option<real>)
    requires other.cores == store.cores && other.penalty == store.penalty && Monitored(other) == Monitored(store)
    ensures ScoreStore(s, other, n, m, t, e, b).load - ScoreStore(s, store, n, m, t, e, b).load
         == IdlePoints(s, other) + Pressures(s, other).0 + Pressures(s, other).1
            - (IdlePoints(s, store) + Pressures(s, store).0 + Pressures(s, store).1)
  {
    SameCrowd(s, store, other, n, s.concurrencyPenalty);
    SameCrowd(s, store, other, m, s.herdPenalty);
  }

  lemma IdleShift(s: Settings, store: Store, d: real)
    requires store.cpu.Some?
    ensures IdlePoints(s, store.(cpu := Some(store.cpu.value + d))) == IdlePoints(s, store) - d / 100.0 * s.cpuIdleWeight
  {
    TimesLess(1.0 - store.cpu.value / 100.0, d / 100.0, s.cpuIdleWeight);
    assert 1.0 - (store.cpu.value + d) / 100.0 == 1.0 - store.cpu.value / 100.0 - d / 100.0;
  }

  /** What each per cent of a busy CPU takes off the load. */
  lemma CpuComesOff(s: Settings, store: Store, d: real, n: nat, m: nat, t: Option<real>, e: Option<real>, b: Option<real>)
    requires store.cpu.Some?
    ensures ScoreStore(s, store.(cpu := Some(store.cpu.value + d)), n, m, t, e, b).load
         == ScoreStore(s, store, n, m, t, e, b).load - d / 100.0 * s.cpuIdleWeight
  {
    LoadDiffers(s, store, store.(cpu := Some(store.cpu.value + d)), n, m, t, e, b);
    IdleShift(s, store, d);
  }

  lemma PointsShift(x: real, d: real, weight: real)
    ensures Points(x + d, weight) == Points(x, weight) - d / 100.0 * weight
  {
  }

  function Pressed(store: Store, cpu: real, io: real): (r: Store)
    requires store.psi.Some?
  {
    store.(psi := Some(Pressure(store.psi.value.cpu + cpu, store.psi.value.io + io)))
  }

  lemma PressuresShift(s: Settings, store: Store, cpu: real, io: real)
    requires store.psi.Some?
    ensures Pressures(s, Pressed(store, cpu, io)).0 == Pressures(s, store).0 - cpu / 100.0 * s.cpuPressurePenalty
    ensures Pressures(s, Pressed(store, cpu, io)).1 == Pressures(s, store).1 - io / 100.0 * s.ioPressurePenalty
  {
    PointsShift(store.psi.value.cpu, cpu, s.cpuPressurePenalty);
    PointsShift(store.psi.value.io, io, s.ioPressurePenalty);
  }

  /** What each per cent of pressure takes off the load. */
  lemma PressureComesOff(s: Settings, store: Store, cpu: real, io: real, n: nat, m: nat,
                         t: Option<real>, e: Option<real>, b: Option<real>)
    requires store.psi.Some?
    ensures ScoreStore(s, Pressed(store, cpu, io), n, m, t, e, b).load
         == ScoreStore(s, store, n, m, t, e, b).load - cpu / 100.0 * s.cpuPressurePenalty - io / 100.0 * s.ioPressurePenalty
  {
    LoadDiffers(s, store, Pressed(store, cpu, io), n, m, t, e, b);
    PressuresShift(s, store, cpu, io);
  }

  /** A score does not depend on the id. */
  lemma SameButId(s: Settings, store: Store, id: StoreId, n: nat, m: nat, t: Option<real>, e: Option<real>, b: Option<real>)
    ensures ScoreStore(s, store.(id := id), n, m, t, e, b) == ScoreStore(s, store, n, m, t, e, b)
  {
    SameFigures(s, store, store.(id := id), n, m);
    FinalOf(s, store, n, m, t, e, b);
    FinalOf(s, store.(id := id), n, m, t, e, b);
  }

  /** A store without builds and at rest: the CPU's weight where its load is reported, nothing where pressure alone is, and
      the penalty for no figures where none is. */
  lemma IdleStore(p: Pass, store: Store)
    requires store.id !in p.running && store.id !in p.placed && store.penalty == 0.0
    requires (store.cpu.Some? ==> store.cpu.value == 0.0) && (store.psi.Some? ==> store.psi.value == Pressure(0.0, 0.0))
    ensures ScoreIn(p, store).load == if store.cpu.Some? then p.settings.cpuIdleWeight
                                      else if store.psi.Some? then 0.0 else -p.settings.unmonitoredPenalty
  {
    CrowdGrows(p.settings, store, 0, p.settings.concurrencyPenalty);
    CrowdGrows(p.settings, store, 0, p.settings.herdPenalty);
  }

  /** A build as long as the reference, or of unknown length, feels all of the load; one of no length, none of the CPU's. */
  lemma ScaleEnds(s: Settings, store: Store, n: nat, m: nat, b: Option<real>)
    ensures b.None? || s.cpuReferenceSeconds.None? || b.value >= s.cpuReferenceSeconds.value > 0.0 ==>
              var r := ScoreStore(s, store, n, m, None, None, b); r.final == r.load * store.priority
    ensures b == Some(0.0) && s.cpuReferenceSeconds.Some? && s.cpuReferenceSeconds.value > 0.0 ==>
              var r := ScoreStore(s, store, n, m, None, None, b);
              r.final == (r.load - ScaledPart(s, store, m)) * store.priority
  {
    FinalOf(s, store, n, m, None, None, b);
    if b.None? || s.cpuReferenceSeconds.None? || b.value >= s.cpuReferenceSeconds.value > 0.0 {
      assert CpuScale(s, b) == 1.0 by {
        if b.Some? && s.cpuReferenceSeconds.Some? { assert b.value / s.cpuReferenceSeconds.value >= 1.0; }
      }
    } else if b == Some(0.0) && s.cpuReferenceSeconds.Some? && s.cpuReferenceSeconds.value > 0.0 {
      assert CpuScale(s, b) == 0.0;
    }
  }

  // ------------------------------------------------------------------- the filters

  datatype Reason =
    | Unhealthy | Draining | NoSchedule | Unsupported | FailedTooOften | LastResort | ShortOfDisk | LowScore

  /** `incapable_reason`. */
  function Incapable(p: Pass, store: Store): (r: Option<Reason>) {
    if !store.healthy then Some(Unhealthy)
    else if store.draining then Some(Draining)
    else if store.noSchedule then Some(NoSchedule)
    else if !store.supports then Some(Unsupported)
    else if Retries.Blacklisted(p.attempts, store.id) then Some(FailedTooOften)
    else None
  }

  predicate Capable(p: Pass, store: Store) {
    Incapable(p, store).None?
  }

  predicate DiskShort(p: Pass, store: Store) {
    if store.freeBytes.Some? then store.freeBytes.value < p.settings.minFreeBytes else p.now < store.diskFullUntil
  }

  /** Some store that is not a last resort can take the build. */
  predicate OtherCan(p: Pass, stores: seq<Store>) {
    exists i :: 0 <= i < |stores| && Capable(p, stores[i]) && !stores[i].lastResort
  }

  /** The first filter a store fails, if any. */
  function WhyNot(p: Pass, stores: seq<Store>, store: Store): (r: Option<Reason>) {
    if !Capable(p, store) then Incapable(p, store)
    else if store.lastResort && OtherCan(p, stores) then Some(LastResort)
    else if DiskShort(p, store) then Some(ShortOfDisk)
    else if !ScoreIn(p, store).passed then Some(LowScore)
    else None
  }

  // --------------------------------------------------------------- the stable sort

  function Insert<T>(x: T, list: seq<T>, key: T -> real): (r: seq<T>) {
    if list == [] || key(list[0]) <= key(x) then [x] + list else [list[0]] + Insert(x, list[1..], key)
  }

  /** Descending by key; equals keep their order. */
  function Sorted<T>(list: seq<T>, key: T -> real): (r: seq<T>) {
    if list == [] then [] else Insert(list[0], Sorted(list[1..], key), key)
  }

  ghost predicate Distinct<T>(list: seq<T>) {
    forall i, j | 0 <= i < j < |list| :: list[i] != list[j]
  }

  function IndexOf<T(==)>(list: seq<T>, x: T): (n: nat)
    ensures n <= |list| && (n < |list| ==> list[n] == x) && (n == |list| ==> x !in list)
  {
    if list == [] || list[0] == x then 0 else 1 + IndexOf(list[1..], x)
  }

  /** A higher key comes first, and among equal keys the one that came first. */
  ghost predicate Ahead<T>(list: seq<T>, key: T -> real, a: T, b: T) {
    key(a) > key(b) || (key(a) == key(b) && IndexOf(list, a) < IndexOf(list, b))
  }

  ghost predicate InOrder<T>(list: seq<T>, key: T -> real, r: seq<T>) {
    forall i, j | 0 <= i < j < |r| :: Ahead(list, key, r[i], r[j])
  }

  lemma {:induction false} InsertHolds<T>(x: T, list: seq<T>, key: T -> real)
    ensures multiset(Insert(x, list, key)) == multiset([x]) + multiset(list)
  {
    if !(list == [] || key(list[0]) <= key(x)) {
      InsertHolds(x, list[1..], key);
      assert list == [list[0]] + list[1..];
    }
  }

  lemma {:induction false} SortedHolds<T>(list: seq<T>, key: T -> real)
    ensures multiset(Sorted(list, key)) == multiset(list)
  {
    if list != [] {
      SortedHolds(list[1..], key);
      InsertHolds(list[0], Sorted(list[1..], key), key);
      assert list == [list[0]] + list[1..];
    }
  }

  ghost predicate Descends<T>(r: seq<T>, key: T -> real) {
    forall i, j | 0 <= i < j < |r| :: key(r[i]) >= key(r[j])
  }

  lemma {:induction false} InsertDescends<T>(x: T, list: seq<T>, key: T -> real)
    requires Descends(list, key)
    ensures Descends(Insert(x, list, key), key)
  {
    if !(list == [] || key(list[0]) <= key(x)) {
      InsertDescends(x, list[1..], key);
      InsertHolds(x, list[1..], key);
      var rest := Insert(x, list[1..], key);
      forall j | 0 <= j < |rest| ensures key(list[0]) >= key(rest[j]) {
        assert rest[j] in multiset(rest);
        assert rest[j] == x || rest[j] in list[1..];
      }
    }
  }

  lemma {:induction false} SortedDescends<T>(list: seq<T>, key: T -> real)
    ensures Descends(Sorted(list, key), key)
  {
    if list != [] {
      SortedDescends(list[1..], key);
      InsertDescends(list[0], Sorted(list[1..], key), key);
    }
  }

  lemma HeadIsAhead<T>(list: seq<T>, key: T -> real, r: seq<T>, y: T)
    requires r != [] && InOrder(list, key, r) && list != [] && key(r[0]) > key(list[0])
    requires y == list[0] || y in r[1..]
    ensures Ahead(list, key, r[0], y)
  {
    if y != list[0] {
      var k :| 0 <= k < |r| - 1 && r[1..][k] == y;
      assert Ahead(list, key, r[0], r[k + 1]);
    }
  }

  /** The new head of the list goes before its equals and keeps the rest in order. */
  lemma {:induction false} InsertKeepsOrder<T>(list: seq<T>, key: T -> real, r: seq<T>)
    requires list != [] && InOrder(list, key, r) && list[0] !in r
    requires forall y | y in r :: y in list
    ensures InOrder(list, key, Insert(list[0], r, key))
    decreases r
  {
    var x := list[0];
    var out := Insert(x, r, key);
    assert forall y | y in r :: IndexOf(list, y) > IndexOf(list, x);
    if r == [] || key(r[0]) <= key(x) {
      forall i, j | 0 <= i < j < |out| ensures Ahead(list, key, out[i], out[j]) {
        assert out[j] == r[j - 1];
        if i == 0 {
          assert j > 1 ==> Ahead(list, key, r[0], r[j - 1]);
        } else {
          assert Ahead(list, key, r[i - 1], r[j - 1]);
        }
      }
    } else {
      var rest := Insert(x, r[1..], key);
      assert forall y | y in r[1..] :: y in r;
      InsertKeepsOrder(list, key, r[1..]);
      InsertHolds(x, r[1..], key);
      forall i, j | 0 <= i < j < |out| ensures Ahead(list, key, out[i], out[j]) {
        if i == 0 {
          assert out[j] == rest[j - 1] && rest[j - 1] in multiset(rest);
          HeadIsAhead(list, key, r, rest[j - 1]);
        } else {
          assert Ahead(list, key, rest[i - 1], rest[j - 1]);
        }
      }
    }
  }

  /** The sort is a permutation in which equal keys stay in the order they came. */
  lemma {:induction false} SortedIsStable<T>(list: seq<T>, key: T -> real)
    requires Distinct(list)
    ensures multiset(Sorted(list, key)) == multiset(list)
    ensures InOrder(list, key, Sorted(list, key))
  {
    SortedHolds(list, key);
    if list != [] {
      var tail := list[1..];
      var r := Sorted(tail, key);
      SortedIsStable(tail, key);
      forall y | y in r ensures y in tail {
        assert y in multiset(r) && y in multiset(tail);
      }
      assert list[0] !in tail;
      forall i, j | 0 <= i < j < |r| ensures Ahead(list, key, r[i], r[j]) {
        assert Ahead(tail, key, r[i], r[j]);
        assert r[i] in r && r[j] in r;
      }
      forall y | y in r ensures y in list {
        assert y in tail;
      }
      InsertKeepsOrder(list, key, r);
    }
  }
}
