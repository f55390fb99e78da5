/** The build limit of a store: slow start, cuts under pressure, additive rises, with settle times between. */
module BuildLimits {
  import opened Optional

  datatype Reason =
    | Unmonitored | SlowStart | Steady | MemoryPressure | IoPressure | LowMemory | CpuPressure | Load

  datatype Settings = Settings(
    enabled: bool, memoryHigh: real, memoryLow: real, ioHigh: real, ioLow: real, cpuHigh: real,
    loadPerCoreHigh: real, minAvailableMb: int, factor: real, step: int, settle: real, initial: Option<int>)

  datatype Psi = Psi(memoryFull: real, ioFull: real, cpuSome: real)

  datatype Memory = Memory(total: int, available: int)

  datatype Health = Health(psi: Option<Psi>, memory: Option<Memory>, cores: Option<real>, load1: Option<real>)

  /** One call of `observe`. */
  datatype Sample = Sample(health: Option<Health>, running: int, now: real)

  datatype State = State(limit: int, reason: Reason, slowStart: bool, sampledAt: Option<real>,
                         nextFall: real, nextRise: real)

  function Min(a: int, b: int): int {
    if a <= b then a else b
  }

  function Max(a: int, b: int): int {
    if a <= b then b else a
  }

  /** Conversion to an integer rounds toward zero. */
  function Trunc(x: real): int {
    if x >= 0.0 then x.Floor else -(-x).Floor
  }

  function Share(n: int, factor: real): int {
    Trunc(n as real * factor)
  }

  predicate HasMemory(h: Health) {
    h.memory.Some? && h.memory.value.total != 0
  }

  predicate HasSignal(h: Health) {
    h.psi.Some? || HasMemory(h) || h.load1.Some?
  }

  predicate Signals(s: Settings, x: Sample) {
    s.enabled && x.health.Some? && HasSignal(x.health.value)
  }

  /** A monitored sample with every figure under its marks. */
  predicate AtEase(s: Settings, x: Sample) {
    Signals(s, x) && UnderMarks(s, x.health.value)
  }

  function InitialLimit(s: Settings, ceiling: int, h: Health): (n: int)
    ensures n >= 1 && (ceiling >= 1 ==> n <= ceiling)
  {
    var start := if s.initial.Some? then s.initial.value
                 else if h.cores.Some? && h.cores.value != 0.0 then Trunc(h.cores.value) else 1;
    Max(1, Min(ceiling, start))
  }

  predicate Overloaded(s: Settings, h: Health) {
    && h.load1.Some? && h.cores.Some? && h.cores.value != 0.0
    && h.load1.value / h.cores.value >= s.loadPerCoreHigh
  }

  /** No figure of the sample is at or past a mark; without pressure figures, the load per core counts. */
  predicate UnderMarks(s: Settings, h: Health) {
    && (h.psi.Some? ==> && h.psi.value.memoryFull < s.memoryHigh && h.psi.value.memoryFull <= s.memoryLow
                        && h.psi.value.ioFull < s.ioHigh && h.psi.value.ioFull <= s.ioLow
                        && h.psi.value.cpuSome < s.cpuHigh)
    && (h.memory.Some? && h.memory.value.total != 0 ==>
          h.memory.value.available >= s.minAvailableMb * 1024 && h.memory.value.available >= 2 * s.minAvailableMb * 1024)
    && (h.psi.None? && h.load1.Some? && h.cores.Some? && h.cores.value != 0.0 ==>
          h.load1.value / h.cores.value < s.loadPerCoreHigh)
  }

  /** A figure is at or past a mark that lowers the limit. */
  predicate PastHighMark(s: Settings, h: Health) {
    || (h.psi.Some? && (h.psi.value.memoryFull >= s.memoryHigh || h.psi.value.ioFull >= s.ioHigh))
    || (h.memory.Some? && h.memory.value.total != 0 && h.memory.value.available < s.minAvailableMb * 1024)
  }

  /** A reason for pressure holds of the sample. */
  predicate TrueOf(s: Settings, h: Health, reason: Reason) {
    match reason
    case MemoryPressure => h.psi.Some? && (h.psi.value.memoryFull >= s.memoryHigh || h.psi.value.memoryFull > s.memoryLow)
    case IoPressure => h.psi.Some? && (h.psi.value.ioFull >= s.ioHigh || h.psi.value.ioFull > s.ioLow)
    case LowMemory => h.memory.Some? && h.memory.value.total != 0
                      && (h.memory.value.available < s.minAvailableMb * 1024
                          || h.memory.value.available < 2 * s.minAvailableMb * 1024)
    case CpuPressure => h.psi.Some? && h.psi.value.cpuSome >= s.cpuHigh
    case Load => h.psi.None? && Overloaded(s, h)
    case Steady => true
    case _ => false
  }

  /** The reason, and whether it lowers the limit. */
  function Verdict(s: Settings, h: Health): (v: (Reason, bool))
    ensures v.0 == Steady <==> UnderMarks(s, h)
    ensures v.1 <==> PastHighMark(s, h)
    ensures TrueOf(s, h, v.0)
  {
    var minKb := s.minAvailableMb * 1024;
    if h.psi.Some? && h.psi.value.memoryFull >= s.memoryHigh then (MemoryPressure, true)
    else if h.psi.Some? && h.psi.value.ioFull >= s.ioHigh then (IoPressure, true)
    else if HasMemory(h) && h.memory.value.available < minKb then (LowMemory, true)
    else if h.psi.Some? && h.psi.value.memoryFull > s.memoryLow then (MemoryPressure, false)
    else if h.psi.Some? && h.psi.value.ioFull > s.ioLow then (IoPressure, false)
    else if HasMemory(h) && h.memory.value.available < 2 * minKb then (LowMemory, false)
    else if h.psi.Some? && h.psi.value.cpuSome >= s.cpuHigh then (CpuPressure, false)
    else if h.psi.None? && Overloaded(s, h) then (Load, false)
    else (Steady, false)
  }

  // ------------------------------------------------------- one sample, as a function

  function Started(s: Settings, ceiling: int, l: State, h: Health, now: real): (r: State) {
    if l.reason != Unmonitored then l.(sampledAt := Some(now))
    else State(InitialLimit(s, ceiling, h), SlowStart, true, Some(now), l.nextFall, now + s.settle)
  }

  function CutTo(s: Settings, l: State, running: int): (n: int) {
    Max(1, Share(Min(l.limit, Max(running, 1)), s.factor))
  }

  function Grown(s: Settings, ceiling: int, l: State): (n: int) {
    Min(ceiling, if l.slowStart then l.limit * 2 else l.limit + s.step)
  }

  /** A monitored sample that neither cuts nor holds. */
  function Quiet(s: Settings, ceiling: int, l: State, running: int, now: real): (r: (State, bool)) {
    var named := l.(reason := if l.slowStart then SlowStart else Steady);
    if running < l.limit || l.limit >= ceiling || now < l.nextRise then (named, false)
    else (named.(limit := Grown(s, ceiling, l), nextRise := now + s.settle), true)
  }

  /** The state after one sample, and the answer. */
  function Next(s: Settings, ceiling: int, l: State, x: Sample): (r: (State, bool)) {
    if !Signals(s, x) then
      (l.(limit := ceiling, reason := Unmonitored, sampledAt := None), l.limit < ceiling)
    else
      var m := Started(s, ceiling, l, x.health.value, x.now);
      var (verdict, falls) := Verdict(s, x.health.value);
      if falls && x.now >= m.nextFall then
        (m.(limit := CutTo(s, m, x.running), reason := verdict, slowStart := false,
            nextFall := x.now + s.settle, nextRise := x.now + s.settle), false)
      else if verdict != Steady then (m.(reason := verdict), false)
      else Quiet(s, ceiling, m, x.running, x.now)
  }

  const FIRST := State(0, Unmonitored, true, None, 0.0, 0.0)

  function Fresh(ceiling: int): (l: State) {
    FIRST.(limit := ceiling)
  }

  class BuildLimit {
    const ceiling: int
    const settings: Settings
    var limit: int
    var reason: Reason
    var slowStart: bool
    var sampledAt: Option<real>
    var nextFall: real
    var nextRise: real

    ghost function View(): (l: State)
      reads this
    {
      State(limit, reason, slowStart, sampledAt, nextFall, nextRise)
    }

    constructor (ceiling: int, settings: Settings)
      ensures this.ceiling == ceiling && this.settings == settings && View() == Fresh(ceiling)
    {
      this.ceiling, this.settings := ceiling, settings;
      limit, reason, slowStart, sampledAt, nextFall, nextRise := ceiling, Unmonitored, true, None, 0.0, 0.0;
    }

    /** One more build stays within the limit. */
    predicate HasRoom(running: int)
      reads this
      ensures HasRoom(running) <==> running + 1 <= limit
    {
      running < limit
    }

    method Set(limit: int, reason: Reason)
      modifies this`limit, this`reason
      ensures this.limit == limit && this.reason == reason
    {
      this.limit, this.reason := limit, reason;
    }

    /** Moves the limit for one sample and answers whether it rose. */
    method Observe(health: Option<Health>, running: int, now: real) returns (rose: bool)
      modifies this
      ensures (View(), rose) == Next(settings, ceiling, old(View()), Sample(health, running, now))
      ensures rose && reason != Unmonitored ==> UnderMarks(settings, health.value)
      ensures old(reason) != Unmonitored && 1 <= limit < old(limit) <= ceiling && settings.step >= 0 ==>
                health.Some? && PastHighMark(settings, health.value) && now >= old(nextFall)
    {
      if !settings.enabled || health.None? || !HasSignal(health.value) {
        rose := limit < ceiling;
        Set(ceiling, Unmonitored);
        sampledAt := None;
        return;
      }
      if reason == Unmonitored {
        Set(InitialLimit(settings, ceiling, health.value), SlowStart);
        slowStart := true;
        nextRise := now + settings.settle;
      }
      sampledAt := Some(now);
      var (verdict, falls) := Verdict(settings, health.value);
      if falls && now >= nextFall {
        var cut := Share(Min(limit, Max(running, 1)), settings.factor);
        Set(Max(1, cut), verdict);
        slowStart := false;
        nextFall := now + settings.settle;
        nextRise := nextFall;
        return false;
      }
      if verdict != Steady {
        reason := verdict;
        return false;
      }
      rose := Grow(running, now);
    }

    /** The end of `observe`: no sign of pressure, so the limit may rise. */
    method Grow(running: int, now: real) returns (rose: bool)
      modifies this
      ensures (View(), rose) == Quiet(settings, ceiling, old(View()), running, now)
    {
      reason := if slowStart then SlowStart else Steady;
      if running < limit || limit >= ceiling || now < nextRise {
        return false;
      }
      var grown := if slowStart then limit * 2 else limit + settings.step;
      Set(Min(ceiling, grown), reason);
      nextRise := now + settings.settle;
      return true;
    }
  }

  // -------------------------------------------------------------------- runs

  ghost predicate Bounded(ceiling: int, l: State) {
    1 <= l.limit <= ceiling && (l.reason == Unmonitored ==> l.limit == ceiling)
  }

  function After(s: Settings, ceiling: int, l: State, run: seq<Sample>): (r: State)
    decreases run
  {
    if run == [] then l else After(s, ceiling, Next(s, ceiling, l, run[0]).0, run[1..])
  }

  /** The sample is a cut: pressure past a high mark, after the settle time of the last cut. */
  predicate IsCut(s: Settings, l: State, x: Sample) {
    Signals(s, x) && PastHighMark(s, x.health.value) && x.now >= l.nextFall
  }

  /** The times of the cuts of a run. */
  function Cuts(s: Settings, ceiling: int, l: State, run: seq<Sample>): (times: seq<real>)
    decreases run
  {
    if run == [] then []
    else
      (if IsCut(s, l, run[0]) then [run[0].now] else [])
      + Cuts(s, ceiling, Next(s, ceiling, l, run[0]).0, run[1..])
  }

  /** How many samples of a run were answered with a rise. */
  function Rises(s: Settings, ceiling: int, l: State, run: seq<Sample>): (n: nat)
    decreases run
  {
    if run == [] then 0
    else
      var (m, rose) := Next(s, ceiling, l, run[0]);
      (if rose then 1 else 0) + Rises(s, ceiling, m, run[1..])
  }

  /** A limit doubled n times. */
  function Doubled(limit: int, n: nat): (r: int)
    ensures limit >= 1 ==> r >= limit
    decreases n
  {
    if n == 0 then limit else Doubled(2 * limit, n - 1)
  }

  /** A number of settle times. */
  function Settles(settle: real, n: nat): (t: real)
    decreases n
  {
    if n == 0 then 0.0 else settle + Settles(settle, n - 1)
  }

  lemma ShareBelow(n: int, factor: real)
    requires n >= 1 && factor <= 1.0
    ensures Share(n, factor) <= n
    ensures factor == 0.5 ==> 2 * Share(n, factor) <= n
  {
    var x := n as real * factor;
    assert x <= n as real;
    assert x.Floor as real <= x;
    if x < 0.0 { assert (-x).Floor >= 0; }
  }

  /** When a share of the ceiling does not exceed it, no share of less exceeds what it is a share of. */
  lemma ShareFits(n: int, ceiling: int, factor: real)
    requires 1 <= n <= ceiling && Share(ceiling, factor) <= ceiling
    ensures Share(n, factor) <= n
  {
    if factor <= 1.0 {
      ShareBelow(n, factor);
    } else {
      var top := Times(ceiling as real, factor);
      assert top < top.Floor as real + 1.0 && top >= 0.0;
      Excess(n as real, ceiling as real, factor);
      assert n as real <= Times(n as real, factor) < n as real + 1.0;
    }
  }

  function Times(a: real, b: real): real {
    a * b
  }

  /** What a factor above 1 adds to a number, it adds at least to a greater one. */
  lemma Excess(n: real, m: real, factor: real)
    requires 0.0 <= n <= m && factor > 1.0
    ensures 0.0 <= Times(n, factor) - n <= Times(m, factor) - m
  {
    var over := factor - 1.0;
    assert Times(n, factor) == n + Times(n, over) && Times(m, factor) == m + Times(m, over);
    assert Times(m, over) - Times(n, over) == Times(m - n, over);
    assert Times(n, over) >= 0.0 && Times(m - n, over) >= 0.0;
  }

  lemma CutBelow(s: Settings, ceiling: int, l: State, running: int)
    requires Share(ceiling, s.factor) <= ceiling && 1 <= l.limit <= ceiling
    ensures 1 <= CutTo(s, l, running) <= l.limit
    ensures s.factor == 0.5 ==> CutTo(s, l, running) == 1 || 2 * CutTo(s, l, running) <= l.limit
  {
    var n := Min(l.limit, Max(running, 1));
    ShareFits(n, ceiling, s.factor);
    if s.factor == 0.5 {
      ShareBelow(n, s.factor);
    }
  }

  // ----------------------------------------------------------------- theorems

  /** A sample without any figure, or with the limit switched off, gives the store its ceiling back. */
  lemma UnmonitoredLaw(s: Settings, ceiling: int, l: State, x: Sample)
    ensures var none := || !s.enabled || x.health.None?
                        || var h := x.health.value;
                           h.psi.None? && h.load1.None? && (h.memory.None? || h.memory.value.total == 0);
            var (r, rose) := Next(s, ceiling, l, x);
            && (none <==> r.reason == Unmonitored)
            && (none ==> r.limit == ceiling && r.sampledAt.None? && (rose <==> l.limit < ceiling))
  {
  }

  /** Where a store starts: at the setting, or at its whole cores, or at 1, within the bounds. */
  lemma InitialLaw(s: Settings, ceiling: int, h: Health)
    requires ceiling >= 1
    ensures var n := InitialLimit(s, ceiling, h);
            if s.initial.Some? then Within(n, s.initial.value as real, ceiling)
            else if h.cores.Some? && h.cores.value != 0.0 then Within(n, h.cores.value, ceiling)
            else n == 1
  {
  }

  /** n is the whole part of x, or the bound it is past. */
  ghost predicate Within(n: int, x: real, ceiling: int) {
    1 <= n <= ceiling && (n > 1 ==> n as real <= x) && (n < ceiling ==> x < (n + 1) as real)
  }

  /** What a cut leaves a monitored store: the share of the builds that count, rounded down, and at least 1. */
  lemma CutLaw(s: Settings, ceiling: int, l: State, x: Sample)
    requires IsCut(s, l, x) && l.reason != Unmonitored && l.limit >= 1 && s.factor >= 0.0
    ensures var (r, rose) := Next(s, ceiling, l, x);
            var share := (if x.running < 1 then 1 else if x.running < l.limit then x.running else l.limit) as real * s.factor;
            && r.limit >= 1 && (r.limit > 1 ==> r.limit as real <= share) && share < (r.limit + 1) as real
            && r.reason in {MemoryPressure, IoPressure, LowMemory}
            && !r.slowStart && r.nextFall == r.nextRise == x.now + s.settle && !rose
  {
    var n := Min(l.limit, Max(x.running, 1));
    assert n as real * s.factor >= 0.0;
  }

  /** Pressure that is no cut holds the limit of a monitored store and names itself. */
  lemma HoldLaw(s: Settings, ceiling: int, l: State, x: Sample)
    requires Signals(s, x) && l.reason != Unmonitored && !UnderMarks(s, x.health.value) && !IsCut(s, l, x)
    ensures Next(s, ceiling, l, x) == (l.(reason := Verdict(s, x.health.value).0, sampledAt := Some(x.now)), false)
    ensures Next(s, ceiling, l, x).0.reason !in {Steady, SlowStart, Unmonitored}
  {
  }

  /**
    The settings that keep the limit in range: a cut at the ceiling does not exceed it, and the step does not
    lower a limit. Nothing checks them.
   */
  predicate StaysInRange(s: Settings, ceiling: int) {
    && ceiling >= 1
    && (!s.enabled || (Share(ceiling, s.factor) <= ceiling && (s.step >= 0 || ceiling == 1)))
  }

  lemma StepBounded(s: Settings, ceiling: int, l: State, x: Sample)
    requires StaysInRange(s, ceiling) && Bounded(ceiling, l)
    ensures Bounded(ceiling, Next(s, ceiling, l, x).0)
  {
    if Signals(s, x) {
      CutBelow(s, ceiling, Started(s, ceiling, l, x.health.value, x.now), x.running);
    }
  }

  /** With such settings, at every moment of every run the limit is between 1 and the ceiling. */
  lemma {:induction false} RunBounded(s: Settings, ceiling: int, l: State, run: seq<Sample>)
    requires StaysInRange(s, ceiling) && Bounded(ceiling, l)
    ensures Bounded(ceiling, After(s, ceiling, l, run))
    decreases run
  {
    if run != [] {
      StepBounded(s, ceiling, l, run[0]);
      RunBounded(s, ceiling, Next(s, ceiling, l, run[0]).0, run[1..]);
    }
  }

  /** The answer of a sample says whether the limit rose. */
  predicate Right(s: Settings, ceiling: int, l: State, x: Sample) {
    Next(s, ceiling, l, x).1 == (Next(s, ceiling, l, x).0.limit > l.limit)
  }

  /** The first sample after none, with no time to settle: the limit starts low and grows within one call. */
  predicate GrowsAtOnce(s: Settings, ceiling: int, l: State, x: Sample) {
    && AtEase(s, x) && l.reason == Unmonitored && s.settle <= 0.0
    && InitialLimit(s, ceiling, x.health.value) <= x.running
    && InitialLimit(s, ceiling, x.health.value) < ceiling
  }

  /** A saturated quiet sample outside slow start, with a step that adds nothing. */
  predicate Stalls(s: Settings, ceiling: int, l: State, x: Sample) {
    && AtEase(s, x) && l.reason != Unmonitored && !l.slowStart
    && s.step < 1 && l.limit <= x.running && l.limit < ceiling && x.now >= l.nextRise
  }

  /** A cut whose share of the running builds, at most as many as the limit, is a build or more above the limit. */
  predicate CutRaises(s: Settings, ceiling: int, l: State, x: Sample) {
    IsCut(s, l, x) &&
      var limit := if l.reason == Unmonitored then InitialLimit(s, ceiling, x.health.value) else l.limit;
      ReachesAbove(Min(limit, Max(x.running, 1)), s.factor, l.limit)
  }

  predicate ReachesAbove(n: int, factor: real, limit: int) {
    n as real * factor >= (limit + 1) as real
  }

  lemma ShareAbove(n: int, factor: real, limit: int)
    requires limit >= 1
    ensures Share(n, factor) > limit <==> ReachesAbove(n, factor, limit)
  {
    var y := n as real * factor;
    if y >= 0.0 {
      assert y.Floor as real <= y < y.Floor as real + 1.0;
    } else {
      assert (-y).Floor >= 0;
    }
  }

  /** In every state in range, whatever the settings: the answer is right but for these three kinds of samples. */
  lemma AnswerIsRiseIff(s: Settings, ceiling: int, l: State, x: Sample)
    requires ceiling >= 1 && Bounded(ceiling, l)
    ensures Right(s, ceiling, l, x)
       <==> !GrowsAtOnce(s, ceiling, l, x) && !Stalls(s, ceiling, l, x) && !CutRaises(s, ceiling, l, x)
  {
    if Signals(s, x) {
      var m := Started(s, ceiling, l, x.health.value, x.now);
      assert 1 <= m.limit <= ceiling;
      CutRaisesIff(s, ceiling, l, x);
      assert Verdict(s, x.health.value).0 == Steady ==> !Verdict(s, x.health.value).1;
    }
  }

  lemma CutRaisesIff(s: Settings, ceiling: int, l: State, x: Sample)
    requires Signals(s, x) && l.limit >= 1
    ensures CutRaises(s, ceiling, l, x)
       <==> IsCut(s, l, x) && CutTo(s, Started(s, ceiling, l, x.health.value, x.now), x.running) > l.limit
  {
    ShareAbove(Min(Started(s, ceiling, l, x.health.value, x.now).limit, Max(x.running, 1)), s.factor, l.limit);
  }

  lemma {:induction false} CutsWait(s: Settings, ceiling: int, l: State, run: seq<Sample>, j: nat)
    requires j < |Cuts(s, ceiling, l, run)|
    ensures Cuts(s, ceiling, l, run)[j] >= l.nextFall + Settles(s.settle, j)
    decreases run
  {
    var m := Next(s, ceiling, l, run[0]).0;
    if !IsCut(s, l, run[0]) {
      assert m.nextFall == l.nextFall;
      CutsWait(s, ceiling, m, run[1..], j);
    } else if j > 0 {
      CutsWait(s, ceiling, m, run[1..], j - 1);
    }
  }

  /** In every run, whatever the samples and their times, two cuts are at least their distance in settle times apart. */
  lemma {:induction false} CutsApart(s: Settings, ceiling: int, l: State, run: seq<Sample>, i: nat, j: nat)
    requires i < j < |Cuts(s, ceiling, l, run)|
    ensures var cuts := Cuts(s, ceiling, l, run); cuts[j] >= cuts[i] + Settles(s.settle, j - i)
    decreases run
  {
    var m := Next(s, ceiling, l, run[0]).0;
    if !IsCut(s, l, run[0]) {
      CutsApart(s, ceiling, m, run[1..], i, j);
    } else if i > 0 {
      CutsApart(s, ceiling, m, run[1..], i - 1, j - 1);
    } else {
      CutsWait(s, ceiling, m, run[1..], j - 1);
    }
  }

  /** The sample raised the limit of a monitored store. */
  predicate IsRise(s: Settings, ceiling: int, l: State, x: Sample) {
    Signals(s, x) && Next(s, ceiling, l, x).1
  }

  lemma {:induction false} RiseHeldBack(s: Settings, ceiling: int, l: State, run: seq<Sample>, t: real, j: nat)
    requires l.nextRise >= t + s.settle && j < |run| && forall i | 0 <= i < |run| :: run[i].now >= t
    requires IsRise(s, ceiling, After(s, ceiling, l, run[..j]), run[j])
    ensures run[j].now >= t + s.settle
    decreases run
  {
    if j > 0 {
      assert run[..j][0] == run[0] && run[..j][1..] == run[1..][..j - 1];
      RiseHeldBack(s, ceiling, Next(s, ceiling, l, run[0]).0, run[1..], t, j - 1);
    }
  }

  /** After a cut or a rise, with time moving on, the next rise of a monitored store waits for the settle time. */
  lemma RiseAfterChange(s: Settings, ceiling: int, l: State, run: seq<Sample>, j: nat)
    requires 0 < j < |run| && forall i | 0 <= i < |run| :: run[i].now >= run[0].now
    requires IsCut(s, l, run[0]) || IsRise(s, ceiling, l, run[0])
    requires IsRise(s, ceiling, After(s, ceiling, l, run[..j]), run[j])
    ensures run[j].now >= run[0].now + s.settle
  {
    var m := Next(s, ceiling, l, run[0]).0;
    assert m.nextRise == run[0].now + s.settle;
    assert run[..j][0] == run[0] && run[..j][1..] == run[1..][..j - 1];
    RiseHeldBack(s, ceiling, m, run[1..], run[0].now, j - 1);
  }

  /** A cut ends slow start for as long as the store is monitored: from then on the limit grows by the step. */
  lemma {:induction false} CutEndsSlowStart(s: Settings, ceiling: int, l: State, run: seq<Sample>)
    requires forall i | 0 <= i < |run| :: Signals(s, run[i])
    requires if l.slowStart || l.reason == Unmonitored then run != [] && IsCut(s, l, run[0]) else true
    ensures !After(s, ceiling, l, run).slowStart && After(s, ceiling, l, run).reason != Unmonitored
    decreases run
  {
    if run != [] {
      CutEndsSlowStart(s, ceiling, Next(s, ceiling, l, run[0]).0, run[1..]);
    }
  }

  /** With the default factor, k cuts and no rise leave at most a 2^k-th of the limit, or 1. */
  lemma {:induction false} CutsHalve(s: Settings, ceiling: int, l: State, run: seq<Sample>)
    requires s.factor == 0.5 && ceiling >= 1 && Bounded(ceiling, l) && Rises(s, ceiling, l, run) == 0
    ensures Bounded(ceiling, After(s, ceiling, l, run))
    ensures var n := After(s, ceiling, l, run).limit;
            n == 1 || Doubled(n, |Cuts(s, ceiling, l, run)|) <= l.limit
    decreases run
  {
    if run != [] {
      var x := run[0];
      var m := Next(s, ceiling, l, x).0;
      ShareBelow(ceiling, s.factor);
      if Signals(s, x) {
        CutBelow(s, ceiling, Started(s, ceiling, l, x.health.value, x.now), x.running);
      }
      CutsHalve(s, ceiling, m, run[1..]);
      if IsCut(s, l, x) {
        DoubledLast(After(s, ceiling, l, run).limit, |Cuts(s, ceiling, m, run[1..])|);
      }
    }
  }

  lemma {:induction false} DoubledLast(n: int, k: nat)
    ensures Doubled(n, k + 1) == 2 * Doubled(n, k)
    decreases k
  {
    if k > 0 {
      DoubledLast(2 * n, k - 1);
    }
  }

  // ------------------------------------------------------------------ growth

  /** Every sample is quiet, finds all slots in use, and comes when the last rise has settled. */
  predicate Saturated(s: Settings, ceiling: int, l: State, run: seq<Sample>)
    decreases run
  {
    run != [] ==>
      && AtEase(s, run[0])
      && run[0].running >= l.limit && run[0].now >= l.nextRise
      && Saturated(s, ceiling, Next(s, ceiling, l, run[0]).0, run[1..])
  }

  /** The limit after n rises. */
  function Target(s: Settings, ceiling: int, l: State, n: nat): (t: int) {
    if l.limit >= ceiling then l.limit
    else Min(ceiling, if l.slowStart then Doubled(l.limit, n) else l.limit + n * s.step)
  }

  /** Saturated quiet samples double the limit in slow start, and add the step after it, up to the ceiling. */
  lemma {:induction false} SaturatedRuns(s: Settings, ceiling: int, l: State, run: seq<Sample>)
    requires l.reason != Unmonitored && l.limit <= ceiling && (l.slowStart ==> l.limit >= 1)
    requires Saturated(s, ceiling, l, run)
    ensures After(s, ceiling, l, run).limit == Target(s, ceiling, l, |run|)
    ensures After(s, ceiling, l, run).slowStart == l.slowStart
    ensures forall n: nat | n <= |run| && Target(s, ceiling, l, n) == ceiling :: Rises(s, ceiling, l, run) <= n
    decreases run
  {
    if run != [] {
      var m := Next(s, ceiling, l, run[0]).0;
      assert !Verdict(s, run[0].health.value).1;
      SaturatedRuns(s, ceiling, m, run[1..]);
      OneMore(s, ceiling, l, m, run[0], |run| - 1);
      forall n: nat | n <= |run| && Target(s, ceiling, l, n) == ceiling
        ensures Rises(s, ceiling, l, run) <= n
      {
        if n == 0 {
          StaysAtCeiling(s, ceiling, l, run);
        } else {
          OneMore(s, ceiling, l, m, run[0], n - 1);
        }
      }
    }
  }

  lemma OneMore(s: Settings, ceiling: int, l: State, m: State, x: Sample, n: nat)
    requires l.reason != Unmonitored && l.limit <= ceiling && (l.slowStart ==> l.limit >= 1)
    requires AtEase(s, x) && x.running >= l.limit && x.now >= l.nextRise
    requires m == Next(s, ceiling, l, x).0
    ensures Target(s, ceiling, m, n) == Target(s, ceiling, l, n + 1)
  {
    assert !Verdict(s, x.health.value).1;
    if l.slowStart {
      assert Doubled(l.limit, n + 1) == Doubled(2 * l.limit, n);
    } else {
      assert (n + 1) * s.step == n * s.step + s.step;
      assert s.step > 0 ==> n * s.step >= 0;
    }
  }

  lemma {:induction false} StaysAtCeiling(s: Settings, ceiling: int, l: State, run: seq<Sample>)
    requires l.limit == ceiling && l.reason != Unmonitored
    requires Saturated(s, ceiling, l, run)
    ensures Rises(s, ceiling, l, run) == 0
    decreases run
  {
    if run != [] {
      assert !Verdict(s, run[0].health.value).1;
      StaysAtCeiling(s, ceiling, Next(s, ceiling, l, run[0]).0, run[1..]);
    }
  }

  /** The rises slow start needs: the least power of two that takes the limit to the ceiling. */
  function Doublings(limit: int, ceiling: int): (n: nat)
    requires limit >= 1
    ensures Doubled(limit, n) >= ceiling
    ensures n > 0 ==> Doubled(limit, n - 1) < ceiling
    decreases ceiling - limit
  {
    if limit >= ceiling then 0 else Doublings(2 * limit, ceiling) + 1
  }

  /**
    A store just monitored, quiet and saturated, doubles from its initial limit: it is at the ceiling after
    logarithmically many rises, and not before.
   */
  lemma SlowStartReachesCeiling(s: Settings, ceiling: int, first: Sample, run: seq<Sample>)
    requires s.settle > 0.0 && ceiling >= 1
    requires AtEase(s, first)
    requires Saturated(s, ceiling, Next(s, ceiling, Fresh(ceiling), first).0, run)
    ensures var start := InitialLimit(s, ceiling, first.health.value);
            var n := Doublings(start, ceiling);
            && (After(s, ceiling, Fresh(ceiling), [first] + run).limit == ceiling <==> |run| >= n)
            && Rises(s, ceiling, Fresh(ceiling), [first] + run) <= n
  {
    var l := Next(s, ceiling, Fresh(ceiling), first).0;
    FirstSample(s, ceiling, first, run);
    SlowStartFrom(s, ceiling, l, run);
  }

  lemma SlowStartFrom(s: Settings, ceiling: int, l: State, run: seq<Sample>)
    requires ceiling >= 1 && Bounded(ceiling, l) && l.reason != Unmonitored && l.slowStart
    requires Saturated(s, ceiling, l, run)
    ensures After(s, ceiling, l, run).limit == ceiling <==> |run| >= Doublings(l.limit, ceiling)
    ensures Rises(s, ceiling, l, run) <= Doublings(l.limit, ceiling)
  {
    SaturatedRuns(s, ceiling, l, run);
    var n := Doublings(l.limit, ceiling);
    if |run| >= n {
      MoreDoublings(l.limit, n, |run|);
      assert Target(s, ceiling, l, n) == ceiling;
    } else {
      MoreDoublings(l.limit, |run|, n - 1);
      FewRises(s, ceiling, l, run);
    }
  }

  lemma FirstSample(s: Settings, ceiling: int, first: Sample, run: seq<Sample>)
    requires s.settle > 0.0 && ceiling >= 1
    requires AtEase(s, first)
    ensures var l := Next(s, ceiling, Fresh(ceiling), first).0;
            && l.limit == InitialLimit(s, ceiling, first.health.value) && l.slowStart && l.reason == SlowStart
            && l.nextRise == first.now + s.settle && Bounded(ceiling, l)
            && After(s, ceiling, Fresh(ceiling), [first] + run) == After(s, ceiling, l, run)
            && Rises(s, ceiling, Fresh(ceiling), [first] + run) == Rises(s, ceiling, l, run)
  {
    assert ([first] + run)[1..] == run;
    assert !Verdict(s, first.health.value).1;
  }

  /** Quiet samples that find all slots in use, the first not before a time and each a settle time after the last. */
  predicate Spaced(s: Settings, ceiling: int, l: State, from: real, run: seq<Sample>)
    decreases run
  {
    run != [] ==>
      && AtEase(s, run[0])
      && run[0].running >= l.limit && run[0].now >= from
      && Spaced(s, ceiling, Next(s, ceiling, l, run[0]).0, run[0].now + s.settle, run[1..])
  }

  lemma {:induction false} SpacedIsSaturated(s: Settings, ceiling: int, l: State, from: real, run: seq<Sample>)
    requires s.settle >= 0.0 && l.reason != Unmonitored && l.nextRise <= from && Spaced(s, ceiling, l, from, run)
    ensures Saturated(s, ceiling, l, run)
    decreases run
  {
    if run != [] {
      assert !Verdict(s, run[0].health.value).1;
      var m := Next(s, ceiling, l, run[0]).0;
      SpacedIsSaturated(s, ceiling, m, run[0].now + s.settle, run[1..]);
    }
  }

  /**
    From samples alone: a store just monitored, with quiet samples a settle time apart that find its slots in use, is
    at the ceiling after as many of them as doublings are needed, and not before.
   */
  lemma SpacedSamplesReachCeiling(s: Settings, ceiling: int, first: Sample, run: seq<Sample>)
    requires s.settle > 0.0 && ceiling >= 1
    requires AtEase(s, first)
    requires Spaced(s, ceiling, Next(s, ceiling, Fresh(ceiling), first).0, first.now + s.settle, run)
    ensures var n := Doublings(InitialLimit(s, ceiling, first.health.value), ceiling);
            && (After(s, ceiling, Fresh(ceiling), [first] + run).limit == ceiling <==> |run| >= n)
            && Rises(s, ceiling, Fresh(ceiling), [first] + run) <= n
  {
    var l := Next(s, ceiling, Fresh(ceiling), first).0;
    FirstSample(s, ceiling, first, run);
    SpacedIsSaturated(s, ceiling, l, first.now + s.settle, run);
    SlowStartReachesCeiling(s, ceiling, first, run);
  }

  lemma {:induction false} MoreDoublings(limit: int, a: nat, b: nat)
    requires limit >= 1 && a <= b
    ensures Doubled(limit, a) <= Doubled(limit, b)
    decreases b
  {
    if a < b {
      MoreDoublings(limit, a, b - 1);
      DoubledLast(limit, b - 1);
    }
  }

  lemma {:induction false} FewRises(s: Settings, ceiling: int, l: State, run: seq<Sample>)
    ensures Rises(s, ceiling, l, run) <= |run|
    decreases run
  {
    if run != [] {
      FewRises(s, ceiling, Next(s, ceiling, l, run[0]).0, run[1..]);
    }
  }
}
