/**
  What a collection pass may drop. Both rules plan sets that are closed under referrers, which is what
  keeps every path that stays with everything it references.
 */
module GcPlan {
  import opened Optional
  import opened Closure

  const FORWARDS := Flags(false, false, false)
  const BACKWARDS := Flags(true, false, false)

  /** What the set references, it holds. */
  ghost predicate ReferenceClosed(db: Database, s: set<Path>) {
    forall p, q | p in s && q in References(db, p) :: q in s
  }

  /** What references the set, it holds. */
  ghost predicate ReferrerClosed(db: Database, s: set<Path>) {
    forall p, q | p in s && q in Referrers(db, p) :: q in s
  }

  lemma RefersDual(db: Database, x: Path, y: Path)
    ensures y in References(db, x) <==> x in Referrers(db, y)
  {
    StepDual(db, false, x, y);
  }

  lemma ClosedEitherWay(db: Database, s: set<Path>)
    ensures Closed(db, FORWARDS, s) <==> ReferenceClosed(db, s)
    ensures Closed(db, BACKWARDS, s) <==> ReferrerClosed(db, s)
  {
    assert forall p :: Step(db, FORWARDS, p) == References(db, p);
    assert forall p :: Step(db, BACKWARDS, p) == Referrers(db, p);
  }

  /** No path that stays references a path that goes. */
  ghost predicate NothingDangles(db: Database, dropped: set<Path>) {
    forall p, q | db.Valid(p) && p !in dropped && q in References(db, p) :: q !in dropped
  }

  /** Dropping a set leaves nothing dangling if and only if the set is closed under referrers. */
  lemma DanglesIff(db: Database, dropped: set<Path>)
    ensures NothingDangles(db, dropped) <==> ReferrerClosed(db, dropped)
  {
    forall x, y
      ensures y in References(db, x) <==> x in Referrers(db, y)
    {
      RefersDual(db, x, y);
    }
    if NothingDangles(db, dropped) {
      forall p, q | p in dropped && q in Referrers(db, p)
        ensures q in dropped
      {
        assert p in References(db, q) && db.Valid(q);
      }
    }
  }

  // --------------------------------------------------------- the substituter rule

  /** The paths some deferring store confirms; a store that cannot answer confirms nothing. */
  function Held(answers: seq<Option<set<Path>>>): (r: set<Path>) {
    if answers == [] then {}
    else Held(answers[..|answers| - 1]) + (match answers[|answers| - 1] case Some(s) => s case None => {})
  }

  /** A path is held if and only if some store that answered confirmed it. */
  lemma {:induction false} HeldIff(answers: seq<Option<set<Path>>>, p: Path)
    ensures p in Held(answers) <==> exists i :: 0 <= i < |answers| && answers[i].Some? && p in answers[i].value
  {
    if answers != [] {
      var n := |answers| - 1;
      HeldIff(answers[..n], p);
      assert forall i | 0 <= i < n :: answers[..n][i] == answers[i];
    }
  }

  /**
    The rule that drops what a substituter holds. `answers` are the replies of the deferring stores,
    `closure` the daemon's answer to a reference closure, which may be anything.
   */
  method PlanDeferred(
    allPaths: set<Path>, answers: seq<Option<set<Path>>>, closure: set<Path> -> set<Path>, live: set<Path>)
    returns (droppable: set<Path>)
    ensures droppable == DeferredPlan(allPaths, answers, closure, live)
    ensures droppable <= allPaths * Held(answers) && droppable !! live
  {
    if answers == [] || allPaths == {} {
      return {};
    }
    var held: set<Path> := {};
    for i := 0 to |answers|
      invariant held == Held(answers[..i])
    {
      assert answers[..i + 1][..i] == answers[..i];
      match answers[i] {
        case Some(s) => held := held + s;
        case None =>
      }
    }
    assert answers[..|answers|] == answers;
    var unheld := allPaths - held;
    var keep := closure(unheld);
    if !(unheld <= keep) {
      return {};
    }
    droppable := allPaths - keep - live;
  }

  function DeferredPlan(
    allPaths: set<Path>, answers: seq<Option<set<Path>>>, closure: set<Path> -> set<Path>, live: set<Path>)
    : (r: set<Path>)
  {
    var unheld := allPaths - Held(answers);
    if answers == [] || allPaths == {} || !(unheld <= closure(unheld)) then {}
    else allPaths - closure(unheld) - live
  }

  /** The daemon answers the reference closure exactly. */
  ghost predicate ExactClosure(db: Database, closure: set<Path> -> set<Path>) {
    forall s :: closure(s) == ClosureSet(db, FORWARDS, s)
  }

  /**
    With exact closures and a live set that holds what it references, the rule plans the largest set
    that is held, dead and closed under referrers.
   */
  lemma DeferredIsGreatestSafe(
    db: Database, answers: seq<Option<set<Path>>>, closure: set<Path> -> set<Path>, live: set<Path>, s: set<Path>)
    requires answers != [] && ExactClosure(db, closure) && ReferenceClosed(db, live)
    ensures var plan := DeferredPlan(db.deriver.Keys, answers, closure, live);
            && ReferrerClosed(db, plan) && plan <= db.deriver.Keys * Held(answers) && plan !! live
            && (ReferrerClosed(db, s) && s <= db.deriver.Keys * Held(answers) && s !! live ==> s <= plan)
  {
    var all := db.deriver.Keys;
    var plan := DeferredPlan(all, answers, closure, live);
    var unheld := all - Held(answers);
    var keep := ClosureSet(db, FORWARDS, unheld);
    assert closure(unheld) == keep;
    ClosureIsLeast(db, FORWARDS, unheld, keep);
    ClosedEitherWay(db, keep);
    forall p, q | p in plan && q in Referrers(db, p)
      ensures q in plan
    {
      RefersDual(db, q, p);
      assert db.Valid(q);
    }
    if ReferrerClosed(db, s) && s <= all * Held(answers) && s !! live {
      KeepMisses(db, unheld, s);
    }
  }

  /** A referrer-closed set that misses the seeds misses everything they reference. */
  lemma KeepMisses(db: Database, seeds: set<Path>, s: set<Path>)
    requires ReferrerClosed(db, s) && s !! seeds
    ensures s !! ClosureSet(db, FORWARDS, seeds)
  {
    var c := ClosureSet(db, FORWARDS, seeds);
    ClosureIsLeast(db, FORWARDS, seeds, c - s);
    forall x
      ensures forall y :: y in References(db, x) <==> x in Referrers(db, y)
    {
      forall y ensures y in References(db, x) <==> x in Referrers(db, y) { RefersDual(db, x, y); }
    }
    ClosedEitherWay(db, c);
    ClosedEitherWay(db, c - s);
    assert ReferenceClosed(db, c - s);
  }

  // ----------------------------------------------------------------- the age rule

  /** The dead paths nothing referenced for long; `stale` or `closed` is `None` when the database cannot tell. */
  function LruPlan(
    allPaths: set<Path>, live: set<Path>, aged: bool, stale: Option<set<Path>>,
    referrerClosure: set<Path> -> Option<set<Path>>)
    : (r: set<Path>)
    ensures r <= allPaths && r !! live
    ensures aged && stale.None? ==> r == {}
    ensures !aged && referrerClosure(allPaths - live).None? ==> r == {}
    ensures aged && stale.Some? && referrerClosure((allPaths - live) * stale.value).None? ==> r == {}
  {
    var dead := allPaths - live;
    if allPaths == {} || (aged && stale.None?) then {}
    else
      var seeds := if aged then dead * stale.value else dead;
      match referrerClosure(seeds)
      case None => {}
      case Some(closed) => closed * dead
  }

  /**
    With an exact referrer closure and a live set that holds what it references, the rule plans the least
    referrer-closed set of valid paths that holds the stale dead ones.
   */
  lemma LruIsLeastSafe(
    db: Database, live: set<Path>, aged: bool, stale: Option<set<Path>>,
    referrerClosure: set<Path> -> Option<set<Path>>, s: set<Path>)
    requires ReferenceClosed(db, live) && (aged ==> stale.Some?)
    requires forall x :: referrerClosure(x) == Some(ClosureSet(db, BACKWARDS, x))
    ensures var all := db.deriver.Keys;
            var plan := LruPlan(all, live, aged, stale, referrerClosure);
            var seeds := if aged then (all - live) * stale.value else all - live;
            && seeds <= plan && ReferrerClosed(db, plan)
            && (ReferrerClosed(db, s) && seeds <= s ==> plan <= s)
  {
    var all := db.deriver.Keys;
    var dead := all - live;
    var seeds := if aged then dead * stale.value else dead;
    var closed := ClosureSet(db, BACKWARDS, seeds);
    assert referrerClosure(seeds) == Some(closed);
    if all != {} {
      assert LruPlan(all, live, aged, stale, referrerClosure) == closed * dead;
      ClosureIsLeast(db, BACKWARDS, seeds, s);
      ClosedEitherWay(db, closed);
      ClosedEitherWay(db, s);
      DeadPartClosed(db, live, closed);
    }
  }

  /** The dead part of a referrer-closed set is referrer-closed, for what is live keeps what it references alive. */
  lemma DeadPartClosed(db: Database, live: set<Path>, closed: set<Path>)
    requires ReferenceClosed(db, live) && ReferrerClosed(db, closed)
    ensures ReferrerClosed(db, closed * (db.deriver.Keys - live))
  {
    var part := closed * (db.deriver.Keys - live);
    forall p, q | p in part && q in Referrers(db, p)
      ensures q in part
    {
      RefersDual(db, q, p);
    }
  }

  // --------------------------------------------------------------------- the veto

  /** The volatile roots and what they reference; the roots alone when the daemon cannot answer. */
  function VetoClosure(volatile: set<Path>, answer: Option<set<Path>>): (r: set<Path>)
    ensures volatile <= r
  {
    if volatile == {} then {}
    else match answer
         case None => volatile
         case Some(closed) => closed + volatile
  }

  /** An exact answer names the closure of the roots that are valid. */
  lemma VetoIsClosed(db: Database, volatile: set<Path>)
    ensures ReferenceClosed(db, VetoClosure(volatile, Some(ClosureSet(db, FORWARDS, volatile * db.deriver.Keys))))
  {
    var seeds := volatile * db.deriver.Keys;
    var closed := ClosureSet(db, FORWARDS, seeds);
    ClosureIsLeast(db, FORWARDS, seeds, closed);
    ClosedEitherWay(db, closed);
    var veto := VetoClosure(volatile, Some(closed));
    forall p, q | p in veto && q in References(db, p)
      ensures q in veto
    {
      assert db.Valid(p);
      assert p in closed;
    }
  }

  lemma SubtractKeepsClosed(db: Database, plan: set<Path>, veto: set<Path>)
    requires ReferrerClosed(db, plan) && ReferenceClosed(db, veto)
    ensures ReferrerClosed(db, plan - veto)
  {
    forall p, q | p in plan - veto && q in Referrers(db, p)
      ensures q in plan - veto
    {
      RefersDual(db, q, p);
    }
  }

  /** A planned pass: what goes is dead, spares the volatile roots and all they need, and leaves nothing dangling. */
  lemma PassIsSafe(db: Database, plan: set<Path>, live: set<Path>, volatile: set<Path>)
    requires ReferrerClosed(db, plan) && plan !! live
    ensures var closed := ClosureSet(db, FORWARDS, volatile * db.deriver.Keys);
            var dropped := plan - VetoClosure(volatile, Some(closed));
            && dropped !! live && dropped !! volatile
            && dropped !! ClosureSet(db, FORWARDS, volatile * db.deriver.Keys)
            && NothingDangles(db, plan) && NothingDangles(db, dropped)
  {
    var closed := ClosureSet(db, FORWARDS, volatile * db.deriver.Keys);
    var veto := VetoClosure(volatile, Some(closed));
    VetoIsClosed(db, volatile);
    SubtractKeepsClosed(db, plan, veto);
    DanglesIff(db, plan);
    DanglesIff(db, plan - veto);
    if volatile == {} {
      ClosureIsLeast(db, FORWARDS, {}, {});
    }
  }

  /**
    When the closure query fails, the veto is the roots alone. A pass then leaves nothing dangling if and only if no
    planned root references a planned path that is not a root.
   */
  lemma FallbackSafeForPlanIff(db: Database, plan: set<Path>, volatile: set<Path>)
    requires ReferrerClosed(db, plan)
    ensures NothingDangles(db, plan - VetoClosure(volatile, None))
       <==> forall p, q | p in plan * volatile && q in References(db, p) && q in plan :: q in volatile
  {
    var dropped := plan - VetoClosure(volatile, None);
    assert dropped == plan - volatile;
    forall x, y
      ensures y in References(db, x) <==> x in Referrers(db, y)
    {
      RefersDual(db, x, y);
    }
    if NothingDangles(db, dropped) {
      forall p, q | p in plan * volatile && q in References(db, p) && q in plan
        ensures q in volatile
      {
        assert db.Valid(p) && p !in dropped;
      }
    }
  }

  /** The fallback is safe for every plan if and only if the roots hold what they reference. */
  lemma FallbackSafeIff(db: Database, volatile: set<Path>)
    ensures (forall plan | ReferrerClosed(db, plan) :: NothingDangles(db, plan - VetoClosure(volatile, None)))
       <==> ReferenceClosed(db, volatile)
  {
    forall plan | ReferrerClosed(db, plan) {
      FallbackSafeForPlanIff(db, plan, volatile);
    }
    if !ReferenceClosed(db, volatile) {
      var p, q :| p in volatile && q in References(db, p) && q !in volatile;
      var plan := db.deriver.Keys;
      assert ReferrerClosed(db, plan) && p in plan * volatile && q in plan;
      assert !NothingDangles(db, plan - VetoClosure(volatile, None));
    }
  }

  /** A store of two paths, of which the volatile one references the other. */
  const TWO := Database(map["p" := None, "q" := None], {("p", "q")}, {})

  lemma TwoPaths()
    ensures TWO.deriver.Keys == {"p", "q"} && "q" in References(TWO, "p")
  {
    assert ("p", "q") in TWO.refs && "p" != "q";
  }

  /** Where nothing is live and no age is set, the age rule plans every path. */
  lemma PlansAll(db: Database, closure: set<Path> -> Option<set<Path>>)
    requires forall x :: closure(x) == Some(ClosureSet(db, BACKWARDS, x))
    ensures LruPlan(db.deriver.Keys, {}, false, None, closure) == db.deriver.Keys
  {
    LruIsLeastSafe(db, {}, false, None, closure, {});
    assert db.deriver.Keys - {} == db.deriver.Keys;
  }

  lemma RootStaysAlone(db: Database, p: Path, q: Path)
    requires q in References(db, p)
    ensures p !in db.deriver.Keys - VetoClosure({p}, None) && q in db.deriver.Keys - VetoClosure({p}, None)
    ensures !NothingDangles(db, db.deriver.Keys - VetoClosure({p}, None))
  {
    assert db.Valid(p) && db.Valid(q) && p != q;
  }

  /** The age rule plans both; the query for the closure of the root fails; the root stays and what it references goes. */
  lemma FallbackLeavesDangling(closure: set<Path> -> Option<set<Path>>)
    requires forall x :: closure(x) == Some(ClosureSet(TWO, BACKWARDS, x))
    ensures var plan := LruPlan({"p", "q"}, {}, false, None, closure);
            var dropped := plan - VetoClosure({"p"}, None);
            && plan == {"p", "q"} && "p" !in dropped && "q" in dropped && "q" in References(TWO, "p")
            && !NothingDangles(TWO, dropped)
  {
    TwoPaths();
    PlansAll(TWO, closure);
    RootStaysAlone(TWO, "p", "q");
  }
}
