/**
  How the scheduler places one build: it takes the ranking, bars or keeps the local store, puts the stores the build
  failed on last, looks for room, fits the memory, and picks or explores.
 */
module Scheduling {
  import opened Optional
  import opened Allocator
  import opened Placement
  import Retries

  /** What the scheduler knows of the build and of the moment, beside the pass of the ranking. */
  datatype Call = Call(
    forbidsLocal: bool,      // the client allows no local job, and the settings heed that
    otherCanBuild: bool,     // another compatible store is there
    remoteOnly: bool,        // without one, a client that allows no local job gets an error
    hereOnly: bool,          // a check or a repair acts on the local store
    buildLocal: bool,        // the derivation prefers a local build
    room: set<StoreId>,      // the stores under their build limit
    peak: Option<int>,
    reserved: map<StoreId, int>,
    localFull: bool,
    prefer: PreferLocal,
    share: real, draw: real, pick: real)

  predicate LocalCanBuild(p: Pass, all: Stores) {
    && all.local.healthy && !all.local.draining && !Retries.Blacklisted(p.attempts, all.local.id)
    && all.local.supports
  }

  /** The client forbids a local build, and another store can do it. */
  predicate Barred(c: Call) {
    c.forbidsLocal && c.otherCanBuild
  }

  predicate Prefers(p: Pass, all: Stores, c: Call) {
    (c.buildLocal || c.hereOnly) && LocalCanBuild(p, all) && !Barred(c)
  }

  /** The ranking, without the local store where it is barred, and with it alone where the build is for here only. */
  function Admitted(p: Pass, all: Stores, c: Call): (r: seq<Store>) {
    var ranked := Ranking(p, all);
    var open := if Barred(c) then Where(ranked, (s: Store) => s.id != all.local.id) else ranked;
    if c.hereOnly then Where(open, (s: Store) => s.id == all.local.id) else open
  }

  /** A build that prefers the local store keeps it as a candidate when the filters dropped it. */
  predicate KeepsLocal(p: Pass, all: Stores, c: Call) {
    Prefers(p, all, c) && forall s | s in Admitted(p, all, c) :: s.id != all.local.id
  }

  predicate FailedBefore(p: Pass, s: Store) {
    s.id in p.attempts.failures
  }

  /** The candidates: stores this build failed on go last. */
  function Candidates(p: Pass, all: Stores, c: Call): (r: seq<Store>) {
    var list := Admitted(p, all, c) + if KeepsLocal(p, all, c) then [all.local] else [];
    Where(list, s => !FailedBefore(p, s)) + Where(list, s => FailedBefore(p, s))
  }

  lemma PickInRange(pick: real, n: nat)
    requires 0.0 <= pick < 1.0 && n > 0
    ensures 0 <= (pick * n as real).Floor < n
  {
    assert 0.0 <= pick * n as real < n as real;
  }

  function Others(list: seq<Store>, chosen: Store, local: StoreId, localFull: bool): (r: seq<Store>) {
    Where(list, (s: Store) => s.id != chosen.id && (s.id != local || !localFull))
  }

  /** The place in a list of n that a draw picks. */
  function PickIndex(pick: real, n: nat): (k: nat)
    requires 0.0 <= pick < 1.0 && n > 0
    ensures k < n
  {
    PickInRange(pick, n);
    (pick * n as real).Floor
  }

  /** `explore_store`: now and then another candidate than the chosen one. */
  function ExploreStore(list: seq<Store>, chosen: Store, local: StoreId, c: Call): (r: Option<Store>)
    requires 0.0 <= c.pick < 1.0
  {
    var others := Others(list, chosen, local, c.localFull);
    if c.draw >= c.share || others == [] then None
    else Some(others[PickIndex(c.pick, |others|)])
  }

  /** From the candidates with room: fits the memory, picks, and now and then explores. */
  function Choose(p: Pass, local: StoreId, c: Call, prefers: bool, roomy: seq<Store>): (r: Option<Store>)
    requires 0.0 <= c.pick < 1.0
  {
    var fit := FitMemory(roomy, c.peak, c.reserved).stores;
    var picked := PickStore(fit, local, c.localFull, if prefers then Some(c.prefer) else None);
    if picked.None? || prefers || c.share <= 0.0 then picked
    else
      var explored := ExploreStore(Where(fit, s => !FailedBefore(p, s)), picked.value, local, c);
      if explored.Some? then explored else picked
  }

  /** The candidates under their build limit. */
  function Roomy(p: Pass, all: Stores, c: Call): (r: seq<Store>) {
    Where(Candidates(p, all, c), (s: Store) => s.id in c.room)
  }

  /** The client allows no local job, no other store can build, and the settings make that an error. */
  predicate RefusesLocal(c: Call) {
    c.forbidsLocal && !c.otherCanBuild && c.remoteOnly
  }

  /** The store the build goes to; none when it waits, or fails for want of a store. */
  function Place(p: Pass, all: Stores, c: Call): (r: Option<Store>)
    requires 0.0 <= c.pick < 1.0
  {
    if RefusesLocal(c) then None
    else Choose(p, all.local.id, c, Prefers(p, all, c), Roomy(p, all, c))
  }

  // ----------------------------------------------------------------------- laws

  lemma CandidateIs(p: Pass, all: Stores, c: Call, s: Store)
    ensures s in Candidates(p, all, c) <==> s in Admitted(p, all, c) || (KeepsLocal(p, all, c) && s == all.local)
    ensures s in Admitted(p, all, c) ==> s in Ranking(p, all)
  {
  }

  lemma ExploredIsCandidate(list: seq<Store>, chosen: Store, local: StoreId, c: Call)
    requires 0.0 <= c.pick < 1.0
    ensures var r := ExploreStore(list, chosen, local, c);
            r.Some? ==> r.value in list && r.value != chosen && (r.value.id == local ==> !c.localFull)
  {
    var others := Others(list, chosen, local, c.localFull);
    if others != [] {
      assert others[PickIndex(c.pick, |others|)] in others;
    }
  }

  lemma ChosenIsUsable(p: Pass, local: StoreId, c: Call, prefers: bool, roomy: seq<Store>)
    requires 0.0 <= c.pick < 1.0
    ensures var r := Choose(p, local, c, prefers, roomy);
            r.Some? ==> r.value in roomy && (r.value.id == local ==> !c.localFull)
  {
    ChosenFits(p, local, c, prefers, roomy);
    FitKeeps(roomy, c.peak, c.reserved);
  }

  /** A placed build goes to a candidate with room and a slot. */
  lemma PlacedIsCandidate(p: Pass, all: Stores, c: Call)
    requires 0.0 <= c.pick < 1.0
    ensures var r := Place(p, all, c);
            r.Some? ==> && r.value in Candidates(p, all, c) && r.value.id in c.room
                        && (r.value.id == all.local.id ==> !c.localFull)
  {
    var roomy := Roomy(p, all, c);
    ChosenIsUsable(p, all.local.id, c, Prefers(p, all, c), roomy);
  }

  /** From a store the build failed on, all that follow are such. */
  ghost predicate UntriedFirst(p: Pass, list: seq<Store>) {
    forall i, j | 0 <= i < j < |list| :: FailedBefore(p, list[i]) ==> FailedBefore(p, list[j])
  }

  lemma {:induction false} UntriedFirstWhere(p: Pass, list: seq<Store>, keep: Store -> bool)
    requires UntriedFirst(p, list)
    ensures UntriedFirst(p, Where(list, keep))
  {
    if list != [] {
      UntriedFirstWhere(p, list[1..], keep);
      var rest := Where(list[1..], keep);
      forall j | 0 <= j < |rest|
        ensures FailedBefore(p, list[0]) ==> FailedBefore(p, rest[j])
      {
        assert rest[j] in rest;
        var k :| 0 <= k < |list| - 1 && list[1..][k] == rest[j];
        assert list[k + 1] == rest[j];
      }
    }
  }

  lemma CandidatesUntriedFirst(p: Pass, all: Stores, c: Call)
    ensures UntriedFirst(p, Candidates(p, all, c))
  {
    SplitUntriedFirst(p, Admitted(p, all, c) + if KeepsLocal(p, all, c) then [all.local] else []);
  }

  lemma SplitUntriedFirst(p: Pass, list: seq<Store>)
    ensures UntriedFirst(p, Where(list, s => !FailedBefore(p, s)) + Where(list, s => FailedBefore(p, s)))
  {
    var untried, tried := Where(list, s => !FailedBefore(p, s)), Where(list, s => FailedBefore(p, s));
    assert forall i | 0 <= i < |untried| :: untried[i] in untried;
    assert forall i | 0 <= i < |tried| :: tried[i] in tried;
  }

  /**
    A build without a preference goes to a store it failed on only when it failed on every usable candidate with room,
    provided that the memory of some candidate fits; when none fits, the most memory decides instead.
   */
  lemma FailedStoresComeLast(p: Pass, all: Stores, c: Call, t: Store)
    requires 0.0 <= c.pick < 1.0 && !Prefers(p, all, c)
    requires Place(p, all, c).Some? && Place(p, all, c).value.id in p.attempts.failures
    requires var roomy := Roomy(p, all, c);
             var fit := FitMemory(roomy, c.peak, c.reserved);
             !fit.noneFits && t in fit.stores && (t.id == all.local.id ==> !c.localFull)
    ensures t.id in p.attempts.failures
  {
    CandidatesUntriedFirst(p, all, c);
    UntriedFirstWhere(p, Candidates(p, all, c), (s: Store) => s.id in c.room);
    ChosenFailedLast(p, all.local.id, c, Roomy(p, all, c), t);
  }

  lemma ChosenFailedLast(p: Pass, local: StoreId, c: Call, roomy: seq<Store>, t: Store)
    requires 0.0 <= c.pick < 1.0 && UntriedFirst(p, roomy)
    requires Choose(p, local, c, false, roomy).Some? && FailedBefore(p, Choose(p, local, c, false, roomy).value)
    requires var fit := FitMemory(roomy, c.peak, c.reserved);
             !fit.noneFits && t in fit.stores && (t.id == local ==> !c.localFull)
    ensures FailedBefore(p, t)
  {
    var fit := FitMemory(roomy, c.peak, c.reserved).stores;
    if fit != roomy {
      UntriedFirstWhere(p, roomy, s => Fits(s, c.peak.value, c.reserved));
    }
    var picked := PickStore(fit, local, c.localFull, None).value;
    ExploredIsCandidate(Where(fit, s => !FailedBefore(p, s)), picked, local, c);
    BestComesFirst(p, fit, local, c.localFull, t);
  }

  lemma BestComesFirst(p: Pass, fit: seq<Store>, local: StoreId, localFull: bool, t: Store)
    requires UntriedFirst(p, fit) && t in fit && (t.id == local ==> !localFull)
    ensures var r := PickStore(fit, local, localFull, None); r.Some? && (FailedBefore(p, r.value) ==> FailedBefore(p, t))
  {
    PickIsBest(fit, local, localFull);
    var picked := PickStore(fit, local, localFull, None).value;
    var i :| 0 <= i < |fit| && fit[i] == picked && forall j | 0 <= j < i :: fit[j].id == local && localFull;
    var k :| 0 <= k < |fit| && fit[k] == t;
    assert i <= k;
  }

  /** The local store is the only one of its id. */
  lemma LocalById(p: Pass, all: Stores, s: Store)
    requires Table(all) && s in Order(p, all) && s.id == all.local.id
    ensures s == all.local
  {
  }

  predicate MemoryFits(c: Call, s: Store) {
    c.peak.None? || c.peak.value == 0 || Fits(s, c.peak.value, c.reserved)
  }

  /**
    The preference keeps a local store that the filters dropped, and nothing stands in the way: it has a slot and room for
    a build, and memory for this one, or no candidate with room has the memory.
   */
  predicate GoesPastFilters(p: Pass, all: Stores, c: Call) {
    && KeepsLocal(p, all, c) && !RefusesLocal(c) && !c.localFull && all.local.id in c.room
    && (MemoryFits(c, all.local) || forall s | s in Candidates(p, all, c) && s.id in c.room :: !MemoryFits(c, s))
  }

  /** A build is placed on a store that failed a filter if and only if it goes past them, to the local store. */
  lemma PlacedPastFiltersIff(p: Pass, all: Stores, c: Call)
    requires Table(all) && 0.0 <= c.pick < 1.0
    ensures var r := Place(p, all, c);
            && (r.Some? && WhyNot(p, Order(p, all), r.value).Some? <==> GoesPastFilters(p, all, c))
            && (GoesPastFilters(p, all, c) ==> r == Some(all.local))
  {
    LocalFitsIff(p, all, c);
    if Place(p, all, c).Some? {
      PlacedLaws(p, all, c);
      ChosenFits(p, all.local.id, c, Prefers(p, all, c), Roomy(p, all, c));
    }
    if GoesPastFilters(p, all, c) {
      PastFiltersToLocal(p, all, c);
    }
  }

  lemma LocalFitsIff(p: Pass, all: Stores, c: Call)
    ensures GoesPastFilters(p, all, c) <==>
            && KeepsLocal(p, all, c) && !RefusesLocal(c) && !c.localFull
            && all.local in FitMemory(Roomy(p, all, c), c.peak, c.reserved).stores
  {
    FitKeepsIff(Roomy(p, all, c), c.peak, c.reserved, all.local);
    CandidateIs(p, all, c, all.local);
  }

  lemma PastFiltersToLocal(p: Pass, all: Stores, c: Call)
    requires Table(all) && 0.0 <= c.pick < 1.0 && GoesPastFilters(p, all, c)
    ensures Place(p, all, c) == Some(all.local)
  {
    LocalFitsIff(p, all, c);
    PreferLocalPicksLocal(FitMemory(Roomy(p, all, c), c.peak, c.reserved).stores, all.local.id, c.localFull, c.prefer);
    PlacedLaws(p, all, c);
    LocalById(p, all, Place(p, all, c).value);
  }

  lemma ChosenFits(p: Pass, local: StoreId, c: Call, prefers: bool, roomy: seq<Store>)
    requires 0.0 <= c.pick < 1.0
    ensures var r := Choose(p, local, c, prefers, roomy);
            r.Some? ==> r.value in FitMemory(roomy, c.peak, c.reserved).stores && (r.value.id == local ==> !c.localFull)
  {
    var fit := FitMemory(roomy, c.peak, c.reserved).stores;
    var prefer := if prefers then Some(c.prefer) else None;
    PickIsUsable(fit, local, c.localFull, prefer);
    var picked := PickStore(fit, local, c.localFull, prefer);
    if picked.Some? {
      ExploredIsCandidate(Where(fit, s => !FailedBefore(p, s)), picked.value, local, c);
    }
  }

  /**
    What a placed store is: healthy, not draining, able to build and not blacklisted, and one that failed no filter unless it
    is a local store kept by the preference.
   */
  lemma PlacedLaws(p: Pass, all: Stores, c: Call)
    requires Table(all) && 0.0 <= c.pick < 1.0 && Place(p, all, c).Some?
    ensures var s := Place(p, all, c).value;
            && s in Order(p, all)
            && (WhyNot(p, Order(p, all), s).None? <==> !(KeepsLocal(p, all, c) && s == all.local))
            && s.healthy && !s.draining && s.supports && !Retries.Blacklisted(p.attempts, s.id)
            && (Barred(c) ==> s != all.local) && (c.hereOnly ==> s == all.local)
  {
    var s := Place(p, all, c).value;
    PlacedIsCandidate(p, all, c);
    CandidateIs(p, all, c, s);
    if s in Admitted(p, all, c) {
      RankedIsKept(p, all, s);
      if s.id == all.local.id { LocalById(p, all, s); }
    }
    if KeepsLocal(p, all, c) && s == all.local {
      KeptIsNotRanked(p, all, c);
    }
  }

  lemma KeptIsNotRanked(p: Pass, all: Stores, c: Call)
    requires Table(all) && KeepsLocal(p, all, c)
    ensures all.local in Order(p, all) && WhyNot(p, Order(p, all), all.local).Some?
  {
    RankingLaws(p, all);
    assert all.local in Ranking(p, all) ==> all.local in Admitted(p, all, c);
  }

  /** A local store short of disk that a build prefers: it is placed there although the filters dropped the store. */
  lemma KeptLocalIsPlaced(p: Pass, all: Stores, c: Call)
    requires all.remotes == [] && LocalCanBuild(p, all) && !all.local.noSchedule && DiskShort(p, all.local)
    requires c.buildLocal && !c.forbidsLocal && c.peak == None && !c.localFull && all.local.id in c.room
    requires 0.0 <= c.pick < 1.0
    ensures Place(p, all, c) == Some(all.local)
    ensures WhyNot(p, Order(p, all), all.local) == Some(ShortOfDisk)
  {
    assert Order(p, all) == [all.local];
    assert WhyNot(p, Order(p, all), all.local) == Some(ShortOfDisk);
    forall s
      ensures s !in Admitted(p, all, c)
    {
      CandidateIs(p, all, c, s);
      if s in Ranking(p, all) { RankedIsKept(p, all, s); }
    }
    CandidateIs(p, all, c, all.local);
    var roomy := Roomy(p, all, c);
    assert all.local in roomy;
    PreferLocalPicksLocal(roomy, all.local.id, c.localFull, c.prefer);
    PlacedIsCandidate(p, all, c);
    CandidateIs(p, all, c, Place(p, all, c).value);
  }

  // -------------------------------------------------------- when nothing is placed

  /** A store that qualifies, has room under its limit, and is not a local one the client bars. */
  ghost predicate Admissible(p: Pass, all: Stores, c: Call, s: Store) {
    && Qualifies(p, all, s) && s.id in c.room
    && (s.id == all.local.id ==> !(c.forbidsLocal && c.otherCanBuild))
  }

  /** Such a store with a slot, and with the memory, or none has the memory. */
  ghost predicate Open(p: Pass, all: Stores, c: Call, s: Store) {
    && Admissible(p, all, c, s) && (s.id == all.local.id ==> !c.localFull)
    && (MemoryFits(c, s) || forall t | Admissible(p, all, c, t) :: !MemoryFits(c, t))
  }

  lemma RoomyIff(p: Pass, all: Stores, c: Call, s: Store)
    requires !c.buildLocal && !c.hereOnly
    ensures s in Roomy(p, all, c) <==> Admissible(p, all, c, s)
  {
    CandidateIs(p, all, c, s);
    RankedIff(p, all);
  }

  lemma FitIff(p: Pass, all: Stores, c: Call, s: Store)
    requires !c.buildLocal && !c.hereOnly
    ensures s in FitMemory(Roomy(p, all, c), c.peak, c.reserved).stores && (s.id == all.local.id ==> !c.localFull)
       <==> Open(p, all, c, s)
  {
    FitKeepsIff(Roomy(p, all, c), c.peak, c.reserved, s);
    forall t ensures t in Roomy(p, all, c) <==> Admissible(p, all, c, t) {
      RoomyIff(p, all, c, t);
    }
  }

  /** A build without a preference is placed nowhere if and only if the client's wish is an error or no store is open to it. */
  lemma PlacedNowhereIff(p: Pass, all: Stores, c: Call)
    requires 0.0 <= c.pick < 1.0 && !c.buildLocal && !c.hereOnly
    ensures Place(p, all, c).None? <==>
              || (c.forbidsLocal && !c.otherCanBuild && c.remoteOnly)
              || forall s :: !Open(p, all, c, s)
  {
    var fit := FitMemory(Roomy(p, all, c), c.peak, c.reserved).stores;
    PickIsBest(fit, all.local.id, c.localFull);
    forall s ensures s in fit && (s.id == all.local.id ==> !c.localFull) <==> Open(p, all, c, s) {
      FitIff(p, all, c, s);
    }
  }

  // ------------------------------------------------------------------- exploration

  /** Another candidate than the one picked, with a slot, on which the build has not failed. */
  ghost predicate Other(p: Pass, fit: seq<Store>, picked: Store, local: StoreId, c: Call, s: Store) {
    s in fit && s.id !in p.attempts.failures && s.id != picked.id && (s.id == local ==> !c.localFull)
  }

  lemma OtherIff(p: Pass, fit: seq<Store>, picked: Store, local: StoreId, c: Call, s: Store)
    ensures s in Others(Where(fit, s => !FailedBefore(p, s)), picked, local, c.localFull) <==> Other(p, fit, picked, local, c, s)
  {
  }

  lemma ExploredIff(p: Pass, fit: seq<Store>, picked: Store, local: StoreId, c: Call)
    requires 0.0 <= c.pick < 1.0
    ensures var r := ExploreStore(Where(fit, s => !FailedBefore(p, s)), picked, local, c);
            && (r.Some? ==> Other(p, fit, picked, local, c, r.value))
            && (r.Some? <==> c.draw < c.share && exists s :: Other(p, fit, picked, local, c, s))
  {
    var others := Others(Where(fit, s => !FailedBefore(p, s)), picked, local, c.localFull);
    forall s ensures s in others <==> Other(p, fit, picked, local, c, s) {
      OtherIff(p, fit, picked, local, c, s);
    }
    if others != [] {
      assert others[PickIndex(c.pick, |others|)] in others;
    }
  }

  /** The choice without a preference differs from the best store if and only if the draw says so and there is another. */
  lemma ExploresIff(p: Pass, local: StoreId, c: Call, roomy: seq<Store>)
    requires 0.0 <= c.pick < 1.0
    requires PickStore(FitMemory(roomy, c.peak, c.reserved).stores, local, c.localFull, None).Some?
    ensures var fit := FitMemory(roomy, c.peak, c.reserved).stores;
            var best := PickStore(fit, local, c.localFull, None).value;
            var r := Choose(p, local, c, false, roomy);
            && r.Some?
            && (r.value != best ==> Other(p, fit, best, local, c, r.value))
            && (r.value != best <==> 0.0 < c.share && c.draw < c.share && exists s :: Other(p, fit, best, local, c, s))
  {
    var fit := FitMemory(roomy, c.peak, c.reserved).stores;
    ExploredIff(p, fit, PickStore(fit, local, c.localFull, None).value, local, c);
  }

  lemma PickReaches(n: nat, k: nat) returns (pick: real)
    requires k < n
    ensures 0.0 <= pick < 1.0 && PickIndex(pick, n) == k
  {
    pick := k as real / n as real;
    assert pick * n as real == k as real;
  }

  /** Every other candidate is explored by some draw. */
  lemma AnyOtherIsExplored(p: Pass, local: StoreId, c: Call, roomy: seq<Store>, s: Store) returns (pick: real)
    requires PickStore(FitMemory(roomy, c.peak, c.reserved).stores, local, c.localFull, None).Some?
    requires var fit := FitMemory(roomy, c.peak, c.reserved).stores;
             Other(p, fit, PickStore(fit, local, c.localFull, None).value, local, c, s)
    requires 0.0 < c.share && c.draw < c.share
    ensures 0.0 <= pick < 1.0 && Choose(p, local, c.(pick := pick), false, roomy) == Some(s)
  {
    var fit := FitMemory(roomy, c.peak, c.reserved).stores;
    var best := PickStore(fit, local, c.localFull, None).value;
    var others := Others(Where(fit, s => !FailedBefore(p, s)), best, local, c.localFull);
    OtherIff(p, fit, best, local, c, s);
    var k :| 0 <= k < |others| && others[k] == s;
    pick := PickReaches(|others|, k);
  }

  // ---------------------------------------------------------------------- retries

  /** What counted a failure of the build: an attempt the scheduler placed, or a store that went away. */
  datatype Event = Tried(pass: Pass, stores: Stores, call: Call, chosen: Store) | Gone(store: StoreId)

  function FailureOf(e: Event): (f: Retries.Failure) {
    match e
    case Tried(_, _, _, chosen) => Retries.Attempt(chosen.id)
    case Gone(store) => Retries.Removal(store)
  }

  function FailuresOf(h: seq<Event>): (r: seq<Retries.Failure>) {
    seq(|h|, i requires 0 <= i < |h| => FailureOf(h[i]))
  }

  /** Each attempt went where the scheduler placed the build, with the counters the failures before it left. */
  ghost predicate History(h: seq<Event>, ids: set<StoreId>) {
    forall i | 0 <= i < |h| && h[i].Tried? ::
      && Table(h[i].stores) && 0.0 <= h[i].call.pick < 1.0
      && h[i].pass.attempts == Retries.After(FailuresOf(h)[..i])
      && Place(h[i].pass, h[i].stores, h[i].call) == Some(h[i].chosen) && h[i].chosen.id in ids
  }

  lemma HistoryAllowed(h: seq<Event>, ids: set<StoreId>)
    requires History(h, ids)
    ensures Retries.Allowed(FailuresOf(h), ids)
  {
    forall i | 0 <= i < |h| && FailuresOf(h)[i].Attempt?
      ensures FailuresOf(h)[i].store in ids
      ensures !Retries.Blacklisted(Retries.After(FailuresOf(h)[..i]), FailuresOf(h)[i].store)
    {
      PlacedLaws(h[i].pass, h[i].stores, h[i].call);
    }
  }

  /**
    Over n stores a build is tried at most 3n times, however it is placed and whatever stores go away; and then no store
    of those is capable, nothing is ranked, and the scheduler places it nowhere.
   */
  lemma RetriesEnd(h: seq<Event>, ids: set<StoreId>, p: Pass, all: Stores, c: Call)
    requires History(h, ids) && p.attempts == Retries.After(FailuresOf(h)) && Table(all) && 0.0 <= c.pick < 1.0
    requires forall s | s in Order(p, all) :: s.id in ids
    ensures var tried := Retries.Tries(FailuresOf(h)).retries;
            && tried <= Retries.MAX_STORE_RETRIES * |ids|
            && (tried == Retries.MAX_STORE_RETRIES * |ids| ==>
                  && (forall s | s in Order(p, all) :: !Capable(p, s))
                  && Ranking(p, all) == [] && Place(p, all, c) == None)
  {
    HistoryAllowed(h, ids);
    Retries.RetriesAreBounded(FailuresOf(h), ids);
    if Retries.Tries(FailuresOf(h)).retries == Retries.MAX_STORE_RETRIES * |ids| {
      if Ranking(p, all) != [] {
        RankedIsKept(p, all, Ranking(p, all)[0]);
      }
      if Place(p, all, c).Some? {
        PlacedLaws(p, all, c);
      }
    }
  }
}
