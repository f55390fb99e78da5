/** The ranking of all stores for a build, the memory fit, and the choice from a list of candidates. */
module Placement {
  import opened Optional
  import opened Allocator

  /** The other stores in the order of their table, and the local one. */
  datatype Stores = Stores(remotes: seq<Store>, local: Store)

  /** The local store's place decides a tie. */
  function Order(p: Pass, all: Stores): (r: seq<Store>) {
    if p.settings.localWinsTies then [all.local] + all.remotes else all.remotes + [all.local]
  }

  /** Store ids are the keys of the table. */
  ghost predicate Table(all: Stores) {
    && (forall i, j | 0 <= i < j < |all.remotes| :: all.remotes[i].id != all.remotes[j].id)
    && (forall i | 0 <= i < |all.remotes| :: all.remotes[i].id != all.local.id)
  }

  function Where(list: seq<Store>, keep: Store -> bool): (r: seq<Store>)
    ensures forall s :: s in r <==> s in list && keep(s)
  {
    if list == [] then []
    else if keep(list[0]) then [list[0]] + Where(list[1..], keep)
    else Where(list[1..], keep)
  }

  /** The ranked stores: those that fail no filter, best first. */
  function Ranking(p: Pass, all: Stores): (r: seq<Store>) {
    var order := Order(p, all);
    Sorted(Where(order, s => WhyNot(p, order, s).None?), s => ScoreIn(p, s).final)
  }

  datatype Excluded = Excluded(store: Store, reason: Reason)

  // ----------------------------------------------------------- the loops of the source

  lemma {:induction false} WhereAppend(list: seq<Store>, s: Store, keep: Store -> bool)
    ensures Where(list + [s], keep) == Where(list, keep) + if keep(s) then [s] else []
  {
    if list == [] {
      assert list + [s] == [s];
    } else {
      assert (list + [s])[1..] == list[1..] + [s];
      WhereAppend(list[1..], s, keep);
    }
  }

  lemma {:induction false} WhereTwice(list: seq<Store>, a: Store -> bool, b: Store -> bool, both: Store -> bool)
    requires forall s | s in list :: both(s) == (a(s) && b(s))
    ensures Where(Where(list, a), b) == Where(list, both)
  {
    if list != [] {
      WhereTwice(list[1..], a, b, both);
    }
  }

  lemma {:induction false} WhereSame(list: seq<Store>, a: Store -> bool, b: Store -> bool)
    requires forall s | s in list :: a(s) == b(s)
    ensures Where(list, a) == Where(list, b)
  {
    if list != [] {
      WhereSame(list[1..], a, b);
    }
  }

  function StoresOf(list: seq<Excluded>): (r: seq<Store>) {
    seq(|list|, i requires 0 <= i < |list| => list[i].store)
  }

  lemma StoresOfMore(a: seq<Excluded>, b: seq<Excluded>)
    ensures StoresOf(a + b) == StoresOf(a) + StoresOf(b)
  {
  }

  /** The stores that fail a test, each with its reason. */
  function Dropped(list: seq<Store>, keep: Store -> bool, why: Store -> Reason): (r: seq<Excluded>) {
    if list == [] then []
    else if keep(list[0]) then Dropped(list[1..], keep, why)
    else [Excluded(list[0], why(list[0]))] + Dropped(list[1..], keep, why)
  }

  lemma {:induction false} DroppedAppend(list: seq<Store>, s: Store, keep: Store -> bool, why: Store -> Reason)
    ensures Dropped(list + [s], keep, why) == Dropped(list, keep, why) + if keep(s) then [] else [Excluded(s, why(s))]
  {
    if list == [] {
      assert list + [s] == [s];
    } else {
      assert (list + [s])[1..] == list[1..] + [s];
      DroppedAppend(list[1..], s, keep, why);
    }
  }

  lemma {:induction false} DroppedLaws(list: seq<Store>, keep: Store -> bool, why: Store -> Reason)
    ensures forall e :: e in Dropped(list, keep, why) <==> e.store in list && !keep(e.store) && e.reason == why(e.store)
  {
    if list != [] {
      DroppedLaws(list[1..], keep, why);
      assert list == [list[0]] + list[1..];
    }
  }

  lemma {:induction false} SiftLosesNone(list: seq<Store>, keep: Store -> bool, why: Store -> Reason)
    ensures multiset(Where(list, keep)) + multiset(StoresOf(Dropped(list, keep, why))) == multiset(list)
  {
    if list != [] {
      SiftLosesNone(list[1..], keep, why);
      assert list == [list[0]] + list[1..];
      if !keep(list[0]) {
        var first := [Excluded(list[0], why(list[0]))];
        StoresOfMore(first, Dropped(list[1..], keep, why));
        assert StoresOf(first) == [list[0]];
      }
    }
  }

  /** The stores that pass a test, and the others with the reason for each. */
  method Sift(list: seq<Store>, keep: Store -> bool, why: Store -> Reason)
    returns (kept: seq<Store>, dropped: seq<Excluded>)
    ensures kept == Where(list, keep)
    ensures forall e :: e in dropped <==> e.store in list && !keep(e.store) && e.reason == why(e.store)
    ensures multiset(kept) + multiset(StoresOf(dropped)) == multiset(list)
  {
    kept, dropped := [], [];
    for i := 0 to |list|
      invariant kept == Where(list[..i], keep) && dropped == Dropped(list[..i], keep, why)
    {
      assert list[..i + 1] == list[..i] + [list[i]];
      WhereAppend(list[..i], list[i], keep);
      DroppedAppend(list[..i], list[i], keep, why);
      if keep(list[i]) {
        kept := kept + [list[i]];
      } else {
        dropped := dropped + [Excluded(list[i], why(list[i]))];
      }
    }
    assert list[..|list|] == list;
    DroppedLaws(list, keep, why);
    SiftLosesNone(list, keep, why);
  }

  /** The score of a store is high enough, or not known from any figure. */
  predicate ScoresEnough(p: Pass, s: Store) {
    ScoreIn(p, s).load >= p.settings.minScheduleScore || (s.cpu.None? && s.psi.None?)
  }

  lemma ByScoreLaws(p: Pass, candidates: seq<Store>)
    ensures var r := Sorted(Where(candidates, s => ScoreIn(p, s).passed), s => ScoreIn(p, s).final);
            && (forall s :: s in r <==> s in candidates && ScoresEnough(p, s))
            && Descends(r, s => ScoreIn(p, s).final)
  {
    var passing := Where(candidates, s => ScoreIn(p, s).passed);
    var key := (s: Store) => ScoreIn(p, s).final;
    var r := Sorted(passing, key);
    SortedHolds(passing, key);
    SortedDescends(passing, key);
    forall s ensures s in r <==> s in candidates && ScoresEnough(p, s) {
      assert s in r <==> s in multiset(r);
      assert s in passing <==> s in multiset(passing);
      PassedIff(p, s);
    }
  }

  lemma PassedIff(p: Pass, s: Store)
    ensures ScoreIn(p, s).passed <==> ScoresEnough(p, s)
  {
  }

  /** `TelemetryStoreRanker.rank_stores`: drops the stores under the score that counts, and sorts the others. */
  method RankByScore(p: Pass, candidates: seq<Store>) returns (ranked: seq<Store>, excluded: seq<Excluded>)
    ensures ranked == Sorted(Where(candidates, s => ScoreIn(p, s).passed), s => ScoreIn(p, s).final)
    ensures forall s :: s in ranked <==> s in candidates && ScoresEnough(p, s)
    ensures Descends(ranked, s => ScoreIn(p, s).final)
    ensures forall e :: e in excluded <==> e.store in candidates && !ScoreIn(p, e.store).passed && e.reason == LowScore
    ensures multiset(ranked) + multiset(StoresOf(excluded)) == multiset(candidates)
  {
    var passing;
    passing, excluded := Sift(candidates, s => ScoreIn(p, s).passed, s => LowScore);
    ranked := Sorted(passing, s => ScoreIn(p, s).final);
    SortedHolds(passing, s => ScoreIn(p, s).final);
    ByScoreLaws(p, candidates);
  }

  /** The stores left after the filters on capability and last resort. */
  function Eligible(p: Pass, order: seq<Store>): (r: seq<Store>) {
    Where(order, s => Capable(p, s) && !(s.lastResort && OtherCan(p, order)))
  }

  method Qualify(p: Pass, order: seq<Store>) returns (eligible: seq<Store>, excluded: seq<Excluded>)
    ensures eligible == Eligible(p, order)
    ensures forall e :: e in excluded <==>
              && e.store in order && e.store !in eligible
              && e.reason == if Capable(p, e.store) then LastResort else Incapable(p, e.store).value
    ensures multiset(eligible) + multiset(StoresOf(excluded)) == multiset(order)
  {
    var capable, more;
    capable, excluded := Sift(order, s => Capable(p, s),
                              s => if Capable(p, s) then LastResort else Incapable(p, s).value);
    if exists i :: 0 <= i < |capable| && !capable[i].lastResort {
      var i :| 0 <= i < |capable| && !capable[i].lastResort;
      assert capable[i] in order;
      assert OtherCan(p, order);
      eligible, more := Sift(capable, (s: Store) => !s.lastResort, s => LastResort);
      WhereTwice(order, s => Capable(p, s), (s: Store) => !s.lastResort,
                 s => Capable(p, s) && !(s.lastResort && OtherCan(p, order)));
      StoresOfMore(excluded, more);
      excluded := excluded + more;
    } else {
      assert forall i | 0 <= i < |order| && Capable(p, order[i]) :: order[i] in capable;
      eligible := capable;
      WhereSame(order, s => Capable(p, s), s => Capable(p, s) && !(s.lastResort && OtherCan(p, order)));
    }
  }

  /** The three filters of the source, one after the other, keep the stores that fail no filter. */
  lemma FiltersCompose(p: Pass, order: seq<Store>)
    ensures Where(Where(Eligible(p, order), s => !DiskShort(p, s)), s => ScoreIn(p, s).passed)
         == Where(order, s => WhyNot(p, order, s).None?)
  {
    WhereTwice(order, s => Capable(p, s) && !(s.lastResort && OtherCan(p, order)), s => !DiskShort(p, s),
               s => Capable(p, s) && !(s.lastResort && OtherCan(p, order)) && !DiskShort(p, s));
    WhereTwice(order, s => Capable(p, s) && !(s.lastResort && OtherCan(p, order)) && !DiskShort(p, s),
               s => ScoreIn(p, s).passed, s => WhyNot(p, order, s).None?);
  }

  /** What the filters ask of a store, from its own figures. */
  ghost predicate Usable(p: Pass, s: Store) {
    && s.healthy && !s.draining && !s.noSchedule && s.supports && !Retries.Blacklisted(p.attempts, s.id)
    && (s.freeBytes.Some? ==> s.freeBytes.value >= p.settings.minFreeBytes)
    && (s.freeBytes.None? ==> p.now >= s.diskFullUntil)
    && ScoresEnough(p, s)
  }

  /** A store that is no last resort and can take the build, whatever its disk and its load. */
  ghost predicate FirstChoice(p: Pass, all: Stores, s: Store) {
    && (s == all.local || s in all.remotes) && !s.lastResort
    && s.healthy && !s.draining && !s.noSchedule && s.supports && !Retries.Blacklisted(p.attempts, s.id)
  }

  /** A store is ranked when it is usable, and a last resort only when there is no first choice. */
  ghost predicate Qualifies(p: Pass, all: Stores, s: Store) {
    && (s == all.local || s in all.remotes) && Usable(p, s)
    && (s.lastResort ==> !exists t :: FirstChoice(p, all, t))
  }

  lemma OtherCanIff(p: Pass, all: Stores)
    ensures OtherCan(p, Order(p, all)) <==> exists t :: FirstChoice(p, all, t)
    ensures forall s :: s in Order(p, all) <==> s == all.local || s in all.remotes
  {
    var order := Order(p, all);
    if OtherCan(p, order) {
      var i :| 0 <= i < |order| && Capable(p, order[i]) && !order[i].lastResort;
      assert order[i] in order && FirstChoice(p, all, order[i]);
    }
    if t :| FirstChoice(p, all, t) {
      assert t in order;
      var i :| 0 <= i < |order| && order[i] == t;
      assert Capable(p, order[i]);
    }
  }

  lemma NoFilterIff(p: Pass, all: Stores, s: Store)
    ensures s in Order(p, all) && WhyNot(p, Order(p, all), s).None? <==> Qualifies(p, all, s)
  {
    OtherCanIff(p, all);
    PassedIff(p, s);
  }

  /** Sorting keeps the stores kept. */
  lemma RankedIsKept(p: Pass, all: Stores, s: Store)
    ensures s in Ranking(p, all) <==> s in Order(p, all) && WhyNot(p, Order(p, all), s).None?
  {
    var order := Order(p, all);
    var key := (s: Store) => ScoreIn(p, s).final;
    var kept := Where(order, s => WhyNot(p, order, s).None?);
    SortedHolds(kept, key);
    assert s in Ranking(p, all) <==> s in multiset(Sorted(kept, key));
    assert s in kept <==> s in multiset(kept);
  }

  /** The ranked stores, from their own figures; their scores never rise. */
  lemma RankedIff(p: Pass, all: Stores)
    ensures forall s :: s in Ranking(p, all) <==> Qualifies(p, all, s)
    ensures Descends(Ranking(p, all), s => ScoreIn(p, s).final)
  {
    var order := Order(p, all);
    SortedDescends(Where(order, s => WhyNot(p, order, s).None?), s => ScoreIn(p, s).final);
    forall s ensures s in Ranking(p, all) <==> Qualifies(p, all, s) {
      RankedIsKept(p, all, s);
      NoFilterIff(p, all, s);
    }
  }

  /**
    `BuildAllocator.rank_stores`: every store is ranked or excluded, once; the ranked ones fail no filter and
    are sorted, and an excluded one carries the first filter it fails.
   */
  method RankStores(p: Pass, all: Stores) returns (ranked: seq<Store>, excluded: seq<Excluded>)
    ensures ranked == Ranking(p, all)
    ensures forall s :: s in ranked <==> Qualifies(p, all, s)
    ensures Descends(ranked, s => ScoreIn(p, s).final)
    ensures forall e :: e in excluded <==>
              e.store in Order(p, all) && WhyNot(p, Order(p, all), e.store) == Some(e.reason)
    ensures multiset(ranked) + multiset(StoresOf(excluded)) == multiset([all.local]) + multiset(all.remotes)
  {
    var order := Order(p, all);
    var eligible, candidates, early, short, low;
    eligible, early := Qualify(p, order);
    candidates, short := Sift(eligible, s => !DiskShort(p, s), s => ShortOfDisk);
    ranked, low := RankByScore(p, candidates);
    excluded := early + short + low;
    FiltersCompose(p, order);
    forall e
      ensures e in excluded <==> e.store in order && WhyNot(p, order, e.store) == Some(e.reason)
    {
      assert e in excluded <==> e in early || e in short || e in low;
      ReasonIsFirst(p, order, e, e in early, e in short, e in low);
    }
    NoneLost(order, eligible, candidates, ranked, early, short, low);
    OrderHolds(p, all);
    RankedIff(p, all);
  }

  lemma NoneLost(order: seq<Store>, eligible: seq<Store>, candidates: seq<Store>, ranked: seq<Store>,
                 early: seq<Excluded>, short: seq<Excluded>, low: seq<Excluded>)
    requires multiset(eligible) + multiset(StoresOf(early)) == multiset(order)
    requires multiset(candidates) + multiset(StoresOf(short)) == multiset(eligible)
    requires multiset(ranked) + multiset(StoresOf(low)) == multiset(candidates)
    ensures multiset(ranked) + multiset(StoresOf(early + short + low)) == multiset(order)
  {
    StoresOfMore(early, short);
    StoresOfMore(early + short, low);
  }

  lemma OrderHolds(p: Pass, all: Stores)
    ensures multiset(Order(p, all)) == multiset([all.local]) + multiset(all.remotes)
  {
  }

  /** Of the three steps that exclude stores, the one that named a store is the first it fails. */
  lemma ReasonIsFirst(p: Pass, order: seq<Store>, e: Excluded, early: bool, short: bool, low: bool)
    requires var eligible := Eligible(p, order);
             var candidates := Where(eligible, s => !DiskShort(p, s));
             && (early <==> && e.store in order && e.store !in eligible
                            && e.reason == if Capable(p, e.store) then LastResort else Incapable(p, e.store).value)
             && (short <==> e.store in eligible && DiskShort(p, e.store) && e.reason == ShortOfDisk)
             && (low <==> e.store in candidates && !ScoreIn(p, e.store).passed && e.reason == LowScore)
    ensures (early || short || low) <==> e.store in order && WhyNot(p, order, e.store) == Some(e.reason)
  {
  }

  // -------------------------------------------------------------- laws of the ranking

  lemma {:induction false} WhereDistinct(list: seq<Store>, keep: Store -> bool)
    requires Distinct(list)
    ensures Distinct(Where(list, keep))
  {
    if list != [] {
      var rest := Where(list[1..], keep);
      WhereDistinct(list[1..], keep);
      if keep(list[0]) {
        assert list[0] !in list[1..];
        assert forall k | 0 <= k < |rest| :: rest[k] in rest;
      }
    }
  }

  lemma OrderDistinct(p: Pass, all: Stores)
    requires Table(all)
    ensures Distinct(Order(p, all))
  {
  }

  /** Where the local store stands among the stores kept: last, or first when it wins ties. */
  lemma LocalPlace(p: Pass, all: Stores, keep: Store -> bool, s: Store)
    requires Table(all)
    requires var kept := Where(Order(p, all), keep); all.local in kept && s in kept && s != all.local
    ensures var kept := Where(Order(p, all), keep);
            if p.settings.localWinsTies then IndexOf(kept, all.local) < IndexOf(kept, s)
            else IndexOf(kept, s) < IndexOf(kept, all.local)
  {
    var kept := Where(Order(p, all), keep);
    if p.settings.localWinsTies {
      assert Order(p, all)[1..] == all.remotes;
    } else {
      WhereAppend(all.remotes, all.local, keep);
      var before := Where(all.remotes, keep);
      assert all.local !in before;
      assert kept == before + [all.local];
      assert kept[IndexOf(kept, all.local)] == all.local;
      assert kept[IndexOf(kept, s)] == s;
      assert forall k | 0 <= k < |before| :: before[k] in before && kept[k] == before[k];
    }
  }

  /** Ranked scores never rise, the local store stands last among its equals or first, and the ranked stores are those
      that fail no filter. */
  lemma RankingLaws(p: Pass, all: Stores)
    requires Table(all)
    ensures forall s :: s in Ranking(p, all) <==> s in Order(p, all) && WhyNot(p, Order(p, all), s).None?
    ensures var r := Ranking(p, all); forall i, j | 0 <= i < j < |r| :: ScoreIn(p, r[i]).final >= ScoreIn(p, r[j]).final
    ensures var r := Ranking(p, all);
            forall i, j | 0 <= i < |r| && 0 <= j < |r| && i != j && r[i] == all.local
                          && ScoreIn(p, r[i]).final == ScoreIn(p, r[j]).final ::
              if p.settings.localWinsTies then i < j else j < i
  {
    var order := Order(p, all);
    var key := (s: Store) => ScoreIn(p, s).final;
    var keep := (s: Store) => WhyNot(p, order, s).None?;
    var kept := Where(order, keep);
    var r := Ranking(p, all);
    OrderDistinct(p, all);
    WhereDistinct(order, keep);
    SortedIsStable(kept, key);
    assert r == Sorted(kept, key);
    forall s
      ensures s in r <==> s in kept
    {
      assert s in r <==> s in multiset(r);
      assert s in kept <==> s in multiset(kept);
    }
    forall i, j | 0 <= i < j < |r|
      ensures Ahead(kept, key, r[i], r[j]) && r[i] != r[j]
    {
    }
    forall i, j | 0 <= i < |r| && 0 <= j < |r| && i != j && r[i] == all.local && key(r[i]) == key(r[j])
      ensures if p.settings.localWinsTies then i < j else j < i
    {
      assert r[i] in r && r[j] in r && r[i] != r[j];
      LocalPlace(p, all, keep, r[j]);
      assert i < j ==> Ahead(kept, key, r[i], r[j]);
      assert j < i ==> Ahead(kept, key, r[j], r[i]);
    }
  }

  /** The reason a store is excluded for is true of it. */
  lemma ReasonIsTrue(p: Pass, order: seq<Store>, s: Store)
    requires WhyNot(p, order, s).Some?
    ensures match WhyNot(p, order, s).value {
              case Unhealthy => !s.healthy
              case Draining => s.draining
              case NoSchedule => s.noSchedule
              case Unsupported => !s.supports
              case FailedTooOften => Retries.Blacklisted(p.attempts, s.id)
              case LastResort => s.lastResort && OtherCan(p, order)
              case ShortOfDisk => if s.freeBytes.Some? then s.freeBytes.value < p.settings.minFreeBytes else p.now < s.diskFullUntil
              case LowScore => !ScoresEnough(p, s)
            }
  {
  }

  // The order of two ranked stores that differ in one thing.

  /** Two stores alike in all but their id, and what runs on them. */
  ghost predicate Twins(p: Pass, a: Store, b: Store) {
    b == a.(id := b.id) && Count(p.placed, a.id) == Count(p.placed, b.id) && a.priority > 0.0
  }

  /** The build would take less time on `a`, where time counts and is known of both, or needs a shorter transfer. */
  ghost predicate CheaperOn(p: Pass, a: StoreId, b: StoreId) {
    var s := p.settings;
    if s.timePenalty.Some? && a in p.expectedSeconds && b in p.expectedSeconds then
      s.timePenalty.value > 0.0 && p.expectedSeconds[a] < p.expectedSeconds[b]
    else
      && (s.timePenalty.None? || (a !in p.expectedSeconds && b !in p.expectedSeconds))
      && a in p.transferSeconds && b in p.transferSeconds
      && s.transferPenalty > 0.0 && p.transferSeconds[a] < p.transferSeconds[b]
  }

  lemma CostOrders(p: Pass, a: StoreId, b: StoreId)
    requires CheaperOn(p, a, b)
    ensures Cost(p.settings, Get(p.transferSeconds, a), Get(p.expectedSeconds, a))
          < Cost(p.settings, Get(p.transferSeconds, b), Get(p.expectedSeconds, b))
  {
    var s := p.settings;
    if s.timePenalty.Some? && a in p.expectedSeconds && b in p.expectedSeconds {
      TimesRises(p.expectedSeconds[a], p.expectedSeconds[b], s.timePenalty.value);
    } else {
      TimesRises(p.transferSeconds[a], p.transferSeconds[b], s.transferPenalty);
    }
  }

  lemma CheaperScoresHigher(p: Pass, a: Store, b: Store)
    requires Twins(p, a, b) && Count(p.running, a.id) == Count(p.running, b.id) && CheaperOn(p, a.id, b.id)
    ensures ScoreIn(p, a).final > ScoreIn(p, b).final
  {
    var n, m := Count(p.running, a.id), Count(p.placed, a.id);
    CostOrders(p, a.id, b.id);
    TimesRises(Cost(p.settings, Get(p.transferSeconds, a.id), Get(p.expectedSeconds, a.id)),
               Cost(p.settings, Get(p.transferSeconds, b.id), Get(p.expectedSeconds, b.id)), a.priority);
    CostComesOff(p.settings, a, n, m, Get(p.transferSeconds, a.id), Get(p.expectedSeconds, a.id), p.expectedBuildSeconds);
    CostComesOff(p.settings, a, n, m, Get(p.transferSeconds, b.id), Get(p.expectedSeconds, b.id), p.expectedBuildSeconds);
    SameButId(p.settings, a, b.id, n, m, Get(p.transferSeconds, b.id), Get(p.expectedSeconds, b.id), p.expectedBuildSeconds);
  }

  /** Of two ranked stores alike in all else, the one where the build costs less stands first. */
  lemma CheaperFirst(p: Pass, all: Stores, i: nat, j: nat)
    requires Table(all) && i < |Ranking(p, all)| && j < |Ranking(p, all)|
    requires var a, b := Ranking(p, all)[i], Ranking(p, all)[j];
             Twins(p, a, b) && Count(p.running, a.id) == Count(p.running, b.id) && CheaperOn(p, a.id, b.id)
    ensures i < j
  {
    RankingLaws(p, all);
    CheaperScoresHigher(p, Ranking(p, all)[i], Ranking(p, all)[j]);
  }

  /** Of two ranked stores alike in all else, the one that runs fewer builds stands first. */
  lemma LessBusyFirst(p: Pass, all: Stores, i: nat, j: nat)
    requires Table(all) && i < |Ranking(p, all)| && j < |Ranking(p, all)|
    requires var a, b := Ranking(p, all)[i], Ranking(p, all)[j];
             && Twins(p, a, b) && Count(p.running, a.id) < Count(p.running, b.id)
             && Get(p.transferSeconds, a.id) == Get(p.transferSeconds, b.id)
             && Get(p.expectedSeconds, a.id) == Get(p.expectedSeconds, b.id)
             && BuildPoints(p.settings, a, p.settings.concurrencyPenalty) > 0.0
    ensures i < j
  {
    var a, b := Ranking(p, all)[i], Ranking(p, all)[j];
    RankingLaws(p, all);
    SameButId(p.settings, a, b.id, Count(p.running, b.id), Count(p.placed, b.id),
              Get(p.transferSeconds, b.id), Get(p.expectedSeconds, b.id), p.expectedBuildSeconds);
    FewerRunningScoreHigher(p.settings, a, Count(p.running, a.id), Count(p.running, b.id), Count(p.placed, a.id),
                            Get(p.transferSeconds, a.id), Get(p.expectedSeconds, a.id), p.expectedBuildSeconds);
  }

  /** A last-resort store is ranked only when no other store can take the build at all. */
  lemma LastResortIsLast(p: Pass, all: Stores, s: Store, other: Store)
    requires s in Ranking(p, all) && s.lastResort
    requires other in Order(p, all) && Capable(p, other)
    ensures other.lastResort
  {
    RankedIsKept(p, all, s);
    var order := Order(p, all);
    var i :| 0 <= i < |order| && order[i] == other;
  }

  // -------------------------------------------------------------------- memory fit

  /** The memory a build finds on a store; none when the store reports no figure. */
  function Room(store: Store, reserved: map<StoreId, int>): (r: Option<int>) {
    if store.memory.None? || store.memory.value.total == 0 then None
    else Some(store.memory.value.availableKb * 1024 - if store.id in reserved then reserved[store.id] else 0)
  }

  predicate Fits(store: Store, peak: int, reserved: map<StoreId, int>) {
    Room(store, reserved).None? || Room(store, reserved).value >= peak
  }

  function Reserved(reserved: map<StoreId, int>, id: StoreId): (n: int) {
    if id in reserved then reserved[id] else 0
  }

  /** A build fits where no memory is reported, or where its peak is free beside what is reserved. */
  lemma FitsIff(store: Store, peak: int, reserved: map<StoreId, int>)
    ensures Fits(store, peak, reserved) <==>
              || store.memory.None? || store.memory.value.total == 0
              || peak + Reserved(reserved, store.id) <= store.memory.value.availableKb * 1024
  {
  }

  /** More reserved memory, or a higher peak, never makes a build fit. */
  lemma MoreReservedNeverFits(store: Store, peak: int, reserved: map<StoreId, int>, peak': int, reserved': map<StoreId, int>)
    requires peak <= peak' && Reserved(reserved, store.id) <= Reserved(reserved', store.id)
    requires Fits(store, peak', reserved')
    ensures Fits(store, peak, reserved)
  {
    FitsIff(store, peak, reserved);
    FitsIff(store, peak', reserved');
  }

  function RoomOrZero(store: Store, reserved: map<StoreId, int>): (r: real) {
    if Room(store, reserved).None? then 0.0 else Room(store, reserved).value as real
  }

  datatype Fit = Fit(stores: seq<Store>, short: set<StoreId>, noneFits: bool)

  function FitMemory(ranked: seq<Store>, peak: Option<int>, reserved: map<StoreId, int>): (f: Fit) {
    if peak.None? || peak.value == 0 then Fit(ranked, {}, false)
    else
      var fits := Where(ranked, s => Fits(s, peak.value, reserved));
      if fits != [] then Fit(fits, set s | s in ranked && s !in fits :: s.id, false)
      else Fit(Sorted(ranked, s => RoomOrZero(s, reserved)), {}, true)
  }

  /** The fit drops only stores without room, and never all of them. */
  lemma FitKeeps(ranked: seq<Store>, peak: Option<int>, reserved: map<StoreId, int>)
    ensures var f := FitMemory(ranked, peak, reserved);
            && (ranked != [] ==> f.stores != [])
            && (forall s | s in f.stores :: s in ranked)
            && (forall s | s in ranked && s !in f.stores :: peak.Some? && !Fits(s, peak.value, reserved) && s.id in f.short)
  {
    var f := FitMemory(ranked, peak, reserved);
    if f.noneFits {
      var key := (s: Store) => RoomOrZero(s, reserved);
      SortedHolds(ranked, key);
      forall s
        ensures s in f.stores <==> s in ranked
      {
        assert s in f.stores <==> s in multiset(Sorted(ranked, key));
        assert s in ranked <==> s in multiset(ranked);
      }
      if ranked != [] { assert ranked[0] in f.stores; }
    }
  }

  /** Which stores the fit keeps: those with room, or all when none has it. */
  lemma FitKeepsIff(ranked: seq<Store>, peak: Option<int>, reserved: map<StoreId, int>, s: Store)
    ensures s in FitMemory(ranked, peak, reserved).stores <==>
            && s in ranked
            && (peak.None? || peak.value == 0 || Fits(s, peak.value, reserved)
                || forall t | t in ranked :: !Fits(t, peak.value, reserved))
  {
    FitKeeps(ranked, peak, reserved);
    if peak.Some? && peak.value != 0 {
      var fits := Where(ranked, s => Fits(s, peak.value, reserved));
      assert fits != [] ==> fits[0] in fits;
    }
  }

  /** Unless none fits, every store kept has the peak free beside what is reserved on it, or reports no memory. */
  lemma KeptHasRoom(ranked: seq<Store>, peak: int, reserved: map<StoreId, int>, s: Store)
    requires peak != 0 && s in FitMemory(ranked, Some(peak), reserved).stores
    requires !FitMemory(ranked, Some(peak), reserved).noneFits
    ensures s.memory.Some? && s.memory.value.total != 0 ==>
              peak + Reserved(reserved, s.id) <= s.memory.value.availableKb * 1024
  {
    FitsIff(s, peak, reserved);
  }

  /** A store without room is kept only when none has room; then all are kept, the most room first. */
  lemma ShortOnlyWhenNoneFits(ranked: seq<Store>, peak: int, reserved: map<StoreId, int>, s: Store)
    requires Distinct(ranked) && peak != 0
    requires s in FitMemory(ranked, Some(peak), reserved).stores && !Fits(s, peak, reserved)
    ensures var f := FitMemory(ranked, Some(peak), reserved);
            && multiset(f.stores) == multiset(ranked)
            && (forall t | t in ranked :: !Fits(t, peak, reserved))
            && (forall i, j | 0 <= i < j < |f.stores| ::
                  RoomOrZero(f.stores[i], reserved) >= RoomOrZero(f.stores[j], reserved))
  {
    var key := (s: Store) => RoomOrZero(s, reserved);
    var f := FitMemory(ranked, Some(peak), reserved);
    var fits := Where(ranked, s => Fits(s, peak, reserved));
    assert fits == [];
    forall t | t in ranked
      ensures !Fits(t, peak, reserved)
    {
      assert t !in fits;
    }
    SortedIsStable(ranked, key);
    assert f.stores == Sorted(ranked, key);
    assert forall i, j | 0 <= i < j < |f.stores| :: Ahead(ranked, key, f.stores[i], f.stores[j]);
  }

  // -------------------------------------------------------------------- the choice

  datatype PreferLocal = PreferLocal(wait: Option<real>, transferSeconds: map<StoreId, real>, weight: real)

  function First(list: seq<Store>, test: Store -> bool): (r: Option<Store>) {
    if list == [] then None else if test(list[0]) then Some(list[0]) else First(list[1..], test)
  }

  function PickStore(ranked: seq<Store>, local: StoreId, localFull: bool, prefer: Option<PreferLocal>): (r: Option<Store>) {
    var usable := Where(ranked, (s: Store) => s.id != local || !localFull);
    if prefer.None? then (if usable == [] then None else Some(usable[0]))
    else
      var here := First(usable, (s: Store) => s.id == local);
      var remote := First(usable, (s: Store) => s.id != local);
      if here.Some? then here
      else if remote.None? then None
      else if remote.value.id !in prefer.value.transferSeconds || prefer.value.wait.None? then None
      else if prefer.value.wait.value > prefer.value.transferSeconds[remote.value.id] * prefer.value.weight then remote
      else None
  }

  lemma {:induction false} FirstLaw(list: seq<Store>, test: Store -> bool)
    ensures First(list, test).None? <==> forall s | s in list :: !test(s)
    ensures First(list, test).Some? ==>
              First(list, test).value in list && test(First(list, test).value)
  {
    if list != [] {
      FirstLaw(list[1..], test);
      assert list == [list[0]] + list[1..];
    }
  }

  lemma {:induction false} BestUsable(ranked: seq<Store>, usable: Store -> bool)
    ensures var r := Where(ranked, usable);
            r != [] ==> exists i :: 0 <= i < |ranked| && ranked[i] == r[0] && forall j | 0 <= j < i :: !usable(ranked[j])
  {
    if ranked != [] && !usable(ranked[0]) {
      BestUsable(ranked[1..], usable);
      var r := Where(ranked, usable);
      if r != [] {
        var i :| 0 <= i < |ranked| - 1 && ranked[1..][i] == r[0] && forall j | 0 <= j < i :: !usable(ranked[1..][j]);
        forall j | 0 <= j < i + 1 ensures !usable(ranked[j]) {
          if j > 0 { assert ranked[j] == ranked[1..][j - 1]; }
        }
        assert ranked[i + 1] == r[0];
      }
    } else if ranked != [] {
      assert ranked[0] == Where(ranked, usable)[0];
    }
  }

  /** Any choice is a usable store of the list. */
  lemma PickIsUsable(ranked: seq<Store>, local: StoreId, localFull: bool, prefer: Option<PreferLocal>)
    ensures var r := PickStore(ranked, local, localFull, prefer);
            r.Some? ==> r.value in ranked && (r.value.id == local ==> !localFull)
  {
    var usable := Where(ranked, (s: Store) => s.id != local || !localFull);
    FirstLaw(usable, (s: Store) => s.id == local);
    FirstLaw(usable, (s: Store) => s.id != local);
    if usable != [] {
      assert usable[0] in usable;
    }
  }

  /** Without a preference the choice is the best usable store, and none only when none is usable. */
  lemma PickIsBest(ranked: seq<Store>, local: StoreId, localFull: bool)
    ensures var r := PickStore(ranked, local, localFull, None);
            && (r.None? <==> forall s | s in ranked :: s.id == local && localFull)
            && (r.Some? ==> exists i :: 0 <= i < |ranked| && ranked[i] == r.value &&
                              forall j | 0 <= j < i :: ranked[j].id == local && localFull)
  {
    var test := (s: Store) => s.id != local || !localFull;
    BestUsable(ranked, test);
    if Where(ranked, test) != [] {
      assert Where(ranked, test)[0] in Where(ranked, test);
    }
  }

  /** With a preference, a usable local store is the choice. */
  lemma PreferLocalPicksLocal(ranked: seq<Store>, local: StoreId, localFull: bool, prefer: PreferLocal)
    requires !localFull && exists s :: s in ranked && s.id == local
    ensures var r := PickStore(ranked, local, localFull, Some(prefer)); r.Some? && r.value.id == local
  {
    var usable := Where(ranked, (s: Store) => s.id != local || !localFull);
    var s :| s in ranked && s.id == local;
    assert s in usable;
    FirstLaw(usable, (s: Store) => s.id == local);
  }

  lemma {:induction false} FirstWhere(list: seq<Store>, keep: Store -> bool, test: Store -> bool)
    requires forall s | s in list && test(s) :: keep(s)
    ensures First(Where(list, keep), test) == First(list, test)
  {
    if list != [] {
      FirstWhere(list[1..], keep, test);
    }
  }

  /** With a preference and no local slot: the best remote store gets the build exactly when the wait is known to cost more. */
  lemma PreferLocalWaitsIff(ranked: seq<Store>, local: StoreId, localFull: bool, prefer: PreferLocal)
    requires localFull || forall s | s in ranked :: s.id != local
    ensures var best := First(ranked, (s: Store) => s.id != local);
            var delegates := && best.Some? && best.value.id in prefer.transferSeconds && prefer.wait.Some?
                             && prefer.wait.value > prefer.transferSeconds[best.value.id] * prefer.weight;
            PickStore(ranked, local, localFull, Some(prefer)) == if delegates then best else None
  {
    var test := (s: Store) => s.id != local || !localFull;
    FirstWhere(ranked, test, (s: Store) => s.id != local);
    FirstLaw(Where(ranked, test), (s: Store) => s.id == local);
  }

  /** A store picked from the ranking itself failed no filter and has a slot, whatever the memory and the preference. */
  lemma PickedPassedEveryFilter(p: Pass, all: Stores, peak: Option<int>, reserved: map<StoreId, int>,
                                localFull: bool, prefer: Option<PreferLocal>)
    ensures var fit := FitMemory(Ranking(p, all), peak, reserved);
            var r := PickStore(fit.stores, all.local.id, localFull, prefer);
            r.Some? ==>
              && r.value in Order(p, all) && WhyNot(p, Order(p, all), r.value).None?
              && (r.value == all.local ==> !localFull)
  {
    var fit := FitMemory(Ranking(p, all), peak, reserved);
    var r := PickStore(fit.stores, all.local.id, localFull, prefer);
    FitKeeps(Ranking(p, all), peak, reserved);
    PickIsUsable(fit.stores, all.local.id, localFull, prefer);
    if r.Some? {
      RankedIsKept(p, all, r.value);
    }
  }
}
