/** The invariant of the build queue over every run, and what sharing a build guarantees its askers. */
module QueueRuns {
  import opened Optional
  import opened QueueModel

  // ----------------------------------------------------- one build at a time

  /** A build may change anything but its key; an answer, once set, stays. */
  ghost predicate Follows(b: Build, c: Build) {
    c.key == b.key && (b.Done() ==> c.answer == b.answer)
  }

  lemma UpdateKeeps(q: Queue, id: BuildId, c: Build)
    requires Inv(q) && id in q.builds && Follows(q.builds[id], c) && c.holders == q.builds[id].holders
    ensures Inv(q.(builds := q.builds[id := c]))
  {
    assert q.builds[id := c].Keys == q.builds.Keys;
    UpdateDeduplicated(q.builds, q.byKey, id, c);
    UpdateHolders(q.builds, q.held, id, c);
  }

  lemma UpdateDeduplicated(builds: map<BuildId, Build>, byKey: map<Key, BuildId>, id: BuildId, c: Build)
    requires Deduplicated(builds, byKey) && id in builds && Follows(builds[id], c)
    ensures Deduplicated(builds[id := c], byKey)
  {
  }

  lemma UpdateHolders(builds: map<BuildId, Build>, held: Holds, id: BuildId, c: Build)
    requires HoldersAgree(builds, held) && id in builds && c.holders == builds[id].holders
    ensures HoldersAgree(builds[id := c], held)
  {
  }

  lemma CompleteKeeps(q: Queue, id: BuildId, response: Response)
    requires Inv(q)
    ensures Complete(q, id, response).Some? ==> Inv(Complete(q, id, response).value)
  {
    if id in q.builds && !q.builds[id].Done() {
      var b := q.builds[id];
      UpdateKeeps(q, id, b.(answer := Some(response)));
      forall h | h in GivingUp(q, b, response)
        ensures h in q.held
      {
        assert id in HeldBy(q.held, h);
      }
    }
  }

  // ------------------------------------------------------------------ enqueue

  /** A hold taken on a build, on both sides of the relation. */
  lemma JoinHolders(q: Queue, a: Asked, id: BuildId, b: Build)
    requires HoldersAgree(q.builds, q.held) && (a.fromGoal ==> a.goal.Some?)
    requires forall r :: r in b.holders <==> id in HeldBy(q.held, r)
    ensures HoldersAgree(q.builds[id := Join(b, a)], NoteAsker(q, a, id).held)
  {
    var builds, held := q.builds[id := Join(b, a)], NoteAsker(q, a, id).held;
    forall i, r | i in builds
      ensures r in builds[i].holders <==> i in HeldBy(held, r)
    {
      assert HeldBy(held, r) == if a.fromGoal && a.goal == Some(r) then HeldBy(q.held, r) + {id} else HeldBy(q.held, r);
    }
    forall r, i | r in held && i in held[r]
      ensures i in builds
    {
      if i != id { assert i in HeldBy(q.held, r) && r in q.held; }
    }
  }

  lemma JoinKeeps(q: Queue, a: Asked)
    requires Inv(q) && Enqueue(q, a).Joined?
    requires Existing(q, a.key).Some? && !q.builds[Existing(q, a.key).value].Done()
    ensures Inv(Enqueue(q, a).queue)
  {
    var id := Existing(q, a.key).value;
    JoinHolders(q, a, id, q.builds[id]);
    UpdateDeduplicated(q.builds, q.byKey, id, Join(q.builds[id], a));
    assert q.builds[id := Join(q.builds[id], a)].Keys == q.builds.Keys;
  }

  lemma CreateKeeps(q: Queue, a: Asked)
    requires Inv(q) && Enqueue(q, a).Joined?
    requires Existing(q, a.key).None? || q.builds[Existing(q, a.key).value].Done()
    ensures Inv(Enqueue(q, a).queue)
  {
    var id := q.nextId;
    var b := Join(NewBuild(a.key), a);
    assert id !in q.builds;
    forall r
      ensures id !in HeldBy(q.held, r)
    {
      assert HeldBy(q.held, r) <= q.builds.Keys;
    }
    JoinHolders(q, a, id, NewBuild(a.key));
    CreateListed(q.order, q.builds.Keys, id);
    assert q.builds[id := b].Keys == q.builds.Keys + {id};
    CreateDeduplicated(q.builds, q.byKey, id, b);
  }

  lemma CreateListed(order: seq<BuildId>, ids: set<BuildId>, id: BuildId)
    requires Listed(order, ids, id)
    ensures Listed(order + [id], ids + {id}, id + 1)
  {
    var t := order + [id];
    assert id !in order;
    forall i, j | 0 <= i < j < |t|
      ensures t[i] != t[j]
    {
      assert t[i] in order;
    }
  }

  lemma CreateDeduplicated(builds: map<BuildId, Build>, byKey: map<Key, BuildId>, id: BuildId, b: Build)
    requires Deduplicated(builds, byKey) && id !in builds
    requires b.key in byKey ==> builds[byKey[b.key]].Done()
    ensures Deduplicated(builds[id := b], byKey[b.key := id])
  {
  }

  // --------------------------------------------------------- release and prune

  lemma ReleaseKeeps(q: Queue, r: RequestId)
    requires Inv(q)
    ensures Inv(Release(q, r))
  {
    var t := Release(q, r);
    assert t.builds.Keys == q.builds.Keys;
    forall id | id in q.builds
      ensures Follows(q.builds[id], t.builds[id]) && t.builds[id].holders == q.builds[id].holders - {r}
    {
      assert r in q.builds[id].holders <==> id in HeldBy(q.held, r);
    }
    ReleaseHolders(q.builds, t.builds, q.held, r);
    assert Deduplicated(t.builds, t.byKey);
  }

  lemma ReleaseHolders(builds: map<BuildId, Build>, after: map<BuildId, Build>, held: Holds, r: RequestId)
    requires HoldersAgree(builds, held) && after.Keys == builds.Keys
    requires forall id | id in builds :: after[id].holders == builds[id].holders - {r}
    ensures HoldersAgree(after, held - {r})
  {
    forall id, h | id in after
      ensures h in after[id].holders <==> id in HeldBy(held - {r}, h)
    {
      assert h in builds[id].holders <==> id in HeldBy(held, h);
      assert HeldBy(held - {r}, h) == if h == r then {} else HeldBy(held, h);
    }
  }

  lemma {:induction false} WithoutHas(s: seq<BuildId>, gone: set<BuildId>, id: BuildId)
    ensures id in Without(s, gone) <==> id in s && id !in gone
    decreases |s|
  {
    if s != [] {
      var n := |s| - 1;
      assert s == s[..n] + [s[n]];
      WithoutHas(s[..n], gone, id);
    }
  }

  lemma {:induction false} WithoutDistinct(s: seq<BuildId>, gone: set<BuildId>)
    requires forall i, j | 0 <= i < j < |s| :: s[i] != s[j]
    ensures var r := Without(s, gone); forall i, j | 0 <= i < j < |r| :: r[i] != r[j]
    decreases |s|
  {
    if s != [] {
      var n := |s| - 1;
      var r := Without(s[..n], gone);
      WithoutDistinct(s[..n], gone);
      WithoutHas(s[..n], gone, s[n]);
      assert s[n] !in s[..n];
    }
  }

  /** Pruning keeps the invariant, and removes a finished build that nobody holds or streams, and no other. */
  lemma PruneKeeps(q: Queue)
    requires Inv(q)
    ensures Inv(Prune(q))
    ensures forall id | id in q.builds ::
              var b := q.builds[id];
              id !in Prune(q).builds <==> b.answer.Some? && b.requests == {} && b.holders == {} && b.subscribers == {}
    ensures forall id | id in Prune(q).builds :: id in q.builds && Prune(q).builds[id] == q.builds[id]
  {
    var gone := DoomedIds(q);
    var t := Prune(q);
    PruneListed(q.order, q.builds.Keys, q.nextId, gone);
    assert t.builds.Keys == q.builds.Keys - gone;
    assert Deduplicated(t.builds, t.byKey);
    PruneHolders(q.builds, t.builds, q.held);
  }

  lemma PruneListed(order: seq<BuildId>, ids: set<BuildId>, nextId: BuildId, gone: set<BuildId>)
    requires Listed(order, ids, nextId)
    ensures Listed(Without(order, gone), ids - gone, nextId)
  {
    WithoutDistinct(order, gone);
    forall id
      ensures id in Without(order, gone) <==> id in ids - gone
    {
      WithoutHas(order, gone, id);
    }
  }

  lemma PruneHolders(builds: map<BuildId, Build>, after: map<BuildId, Build>, held: Holds)
    requires HoldersAgree(builds, held)
    requires forall id | id in after :: id in builds && after[id] == builds[id]
    requires forall id | id in builds && id !in after :: builds[id].holders == {}
    ensures HoldersAgree(after, held)
  {
    forall h, id | h in held && id in held[h]
      ensures id in after
    {
      assert id in HeldBy(held, h) && h in builds[id].holders;
    }
  }

  // -------------------------------------------------------------------- steps

  lemma CancelUnwantedKeeps(q: Queue, id: BuildId)
    requires Inv(q)
    ensures Inv(CancelUnwanted(q, id))
  {
    if id in q.builds && !q.builds[id].Done() {
      UpdateKeeps(q, id, Cancelled(q.builds[id], UNWANTED));
    }
  }

  lemma StepKeeps(q: Queue, a: Action)
    requires Inv(q)
    ensures Inv(Apply(q, a))
  {
    match a
    case DoEnqueue(asked) =>
      if Enqueue(q, asked).Joined? {
        var e := Existing(q, asked.key);
        if e.Some? && !q.builds[e.value].Done() {
          JoinKeeps(q, asked);
        } else {
          CreateKeeps(q, asked);
        }
      }
    case DoComplete(id, response) => CompleteKeeps(q, id, response);
    case DoCancelUnwanted(id) => CancelUnwantedKeeps(q, id);
    case DoRelease(r) => ReleaseKeeps(q, r);
    case DoPrune => PruneKeeps(q);
    case DoTouch(id, touch) =>
      if id in q.builds {
        UpdateKeeps(q, id, Touched(q.builds[id], touch));
      }
  }

  /** Every run of the queue keeps its indices and its holder relation consistent. */
  lemma {:induction false} RunKeeps(actions: seq<Action>)
    ensures Inv(Run(EMPTY, actions))
    decreases |actions|
  {
    if actions != [] {
      var n := |actions| - 1;
      RunKeeps(actions[..n]);
      StepKeeps(Run(EMPTY, actions[..n]), actions[n]);
    }
  }

  // ----------------------------------------------------------- answers stay

  /** Builds keep their key and their answer, and a number that is gone never comes back. */
  ghost predicate Stable(q: Queue, t: Queue) {
    q.nextId <= t.nextId && Persist(q.builds, t.builds, q.nextId)
  }

  ghost predicate Persist(builds: map<BuildId, Build>, after: map<BuildId, Build>, nextId: BuildId) {
    && (forall id | id in builds && id in after :: Follows(builds[id], after[id]))
    && (forall id | id in after && id !in builds :: id >= nextId)
  }

  lemma UpdatePersists(builds: map<BuildId, Build>, id: BuildId, c: Build, nextId: BuildId)
    requires if id in builds then Follows(builds[id], c) else id >= nextId
    ensures Persist(builds, builds[id := c], nextId)
  {
  }

  lemma StepStable(q: Queue, a: Action)
    requires Inv(q)
    ensures Stable(q, Apply(q, a))
  {
    match a
    case DoEnqueue(asked) =>
      if Enqueue(q, asked).Joined? { EnqueueStable(q, asked); }
    case DoComplete(id, response) => CompleteStable(q, id, response);
    case DoCancelUnwanted(id) => CancelStable(q, id);
    case DoRelease(r) => ReleasePersists(q, r);
    case DoPrune => PrunePersists(q);
    case DoTouch(id, touch) => TouchStable(q, id, touch);
  }

  lemma CompleteStable(q: Queue, id: BuildId, response: Response)
    ensures Stable(q, Apply(q, DoComplete(id, response)))
  {
    if id in q.builds && !q.builds[id].Done() {
      UpdatePersists(q.builds, id, q.builds[id].(answer := Some(response)), q.nextId);
    }
  }

  lemma CancelStable(q: Queue, id: BuildId)
    ensures Stable(q, CancelUnwanted(q, id))
  {
    if id in q.builds && !q.builds[id].Done() {
      UpdatePersists(q.builds, id, Cancelled(q.builds[id], UNWANTED), q.nextId);
    }
  }

  lemma TouchStable(q: Queue, id: BuildId, touch: Touch)
    ensures Stable(q, Apply(q, DoTouch(id, touch)))
  {
    if id in q.builds {
      UpdatePersists(q.builds, id, Touched(q.builds[id], touch), q.nextId);
    }
  }

  lemma PrunePersists(q: Queue)
    ensures Stable(q, Prune(q))
  {
  }

  lemma ReleasePersists(q: Queue, r: RequestId)
    ensures Persist(q.builds, Release(q, r).builds, q.nextId)
  {
  }

  lemma EnqueueStable(q: Queue, a: Asked)
    requires Inv(q) && Enqueue(q, a).Joined?
    ensures Stable(q, Enqueue(q, a).queue)
  {
    var e := Existing(q, a.key);
    if e.Some? && !q.builds[e.value].Done() {
      UpdatePersists(q.builds, e.value, Join(q.builds[e.value], a), q.nextId);
    } else {
      assert q.nextId !in q.builds;
      UpdatePersists(q.builds, q.nextId, Join(NewBuild(a.key), a), q.nextId);
    }
  }

  /** Over any run an answer is set once and never changes, and ids are not reused. */
  lemma {:induction false} AnswersNeverChange(q: Queue, actions: seq<Action>)
    requires Inv(q)
    ensures Inv(Run(q, actions)) && Stable(q, Run(q, actions))
    decreases |actions|
  {
    if actions != [] {
      var n := |actions| - 1;
      AnswersNeverChange(q, actions[..n]);
      var t := Run(q, actions[..n]);
      StepKeeps(t, actions[n]);
      StepStable(t, actions[n]);
    }
  }

  // ----------------------------------------------------- who can end a build

  /** The step answers a build that had no answer. */
  ghost predicate Ended(q: Queue, a: Action, id: BuildId) {
    id in q.builds && !q.builds[id].Done() && id in Apply(q, a).builds && Apply(q, a).builds[id].Done()
  }

  /** An unfinished build never leaves the queue, and ends in one of three ways. */
  lemma HowBuildsEnd(q: Queue, a: Action, id: BuildId)
    requires Inv(q) && id in q.builds && !q.builds[id].Done()
    ensures id in Apply(q, a).builds
    ensures Ended(q, a, id) ==>
              || (a.DoComplete? && a.id == id)
              || a == DoCancelUnwanted(id)
              || (a.DoRelease? && q.builds[id].holders == {a.request} && q.builds[id].standalone == 0)
  {
    if a.DoRelease? {
      assert a.request in q.builds[id].holders <==> id in HeldBy(q.held, a.request);
    }
  }

  /** The scheduler cancels only where, at that moment, nobody wants the build. */
  ghost predicate Guarded(actions: seq<Action>) {
    forall i | 0 <= i < |actions| && actions[i].DoCancelUnwanted? ::
      var q := Run(EMPTY, actions[..i]);
      actions[i].id in q.builds ==> NobodyWants(q, actions[i].id)
  }

  /**
    Shared work is safe: a build that ends without completing is wanted by no standalone asker, and every
    request that holds it has given up or is the one that lets go in that step.
   */
  lemma SharedWorkIsSafe(actions: seq<Action>, i: nat, id: BuildId, h: RequestId)
    requires Guarded(actions) && i < |actions| && !actions[i].DoComplete?
    requires Ended(Run(EMPTY, actions[..i]), actions[i], id)
    ensures var b := Run(EMPTY, actions[..i]).builds[id];
            && b.standalone == 0
            && (h in b.holders ==> h in Run(EMPTY, actions[..i]).givenUp || actions[i] == DoRelease(h))
  {
    RunKeeps(actions[..i]);
    HowBuildsEnd(Run(EMPTY, actions[..i]), actions[i], id);
  }

  // ------------------------------------------- the check and the cancel apart

  /** A live request holds the build, or a standalone asker wants it. */
  predicate Wanted(q: Queue, id: BuildId)
    requires id in q.builds
  {
    q.builds[id].holders - q.givenUp != {} || q.builds[id].standalone > 0
  }

  /** The step is an `enqueue` that joins the build for somebody who has not given up. */
  predicate Revives(q: Queue, a: Action, id: BuildId)
    requires id in q.builds
  {
    && a.DoEnqueue? && a.asked.key == q.builds[id].key && Enqueue(q, a.asked).Joined?
    && (a.asked.goal.None? || (a.asked.fromGoal && a.asked.goal.value !in q.givenUp))
  }

  /**
    `nobody_wants` is asked before the lock is taken, and `cancel_unwanted` does not ask again. One step
    between the two makes the cancelled build a wanted one if and only if it is such an `enqueue`.
   */
  lemma CancelRaceIff(q: Queue, a: Action, id: BuildId)
    requires Inv(q) && id in q.builds && !q.builds[id].Done() && NobodyWants(q, id)
    ensures var t := Apply(q, a);
            id in t.builds && !t.builds[id].Done() && Wanted(t, id) <==> Revives(q, a, id)
  {
    if a.DoEnqueue? {
      EnqueueRevives(q, a.asked, id);
    } else if id in Apply(q, a).builds && !Apply(q, a).builds[id].Done() {
      StepRevives(q, a, id);
    }
  }

  /** A build that the step leaves unfinished is wanted again, or still wanted by nobody. */
  lemma StepRevives(q: Queue, a: Action, id: BuildId)
    requires Inv(q) && id in q.builds && !q.builds[id].Done() && NobodyWants(q, id)
    requires id in Apply(q, a).builds && !Apply(q, a).builds[id].Done()
    ensures Wanted(Apply(q, a), id) <==> Revives(q, a, id)
    ensures !Wanted(Apply(q, a), id) ==> NobodyWants(Apply(q, a), id)
  {
    match a
    case DoEnqueue(asked) =>
      EnqueueRevives(q, asked, id);
    case DoRelease(r) =>
      ReleaseRevivesNone(q, r, id);
    case DoComplete(_, _) => OthersReviveNone(q, a, id);
    case DoCancelUnwanted(_) => OthersReviveNone(q, a, id);
    case DoPrune => OthersReviveNone(q, a, id);
    case DoTouch(_, _) => OthersReviveNone(q, a, id);
  }

  lemma OthersReviveNone(q: Queue, a: Action, id: BuildId)
    requires id in q.builds && !q.builds[id].Done() && NobodyWants(q, id) && !a.DoEnqueue? && !a.DoRelease?
    requires id in Apply(q, a).builds && !Apply(q, a).builds[id].Done()
    ensures !Wanted(Apply(q, a), id) && NobodyWants(Apply(q, a), id)
  {
  }

  lemma ReleaseRevivesNone(q: Queue, r: RequestId, id: BuildId)
    requires Inv(q) && id in q.builds && !q.builds[id].Done() && NobodyWants(q, id)
    requires id in Apply(q, DoRelease(r)).builds && !Apply(q, DoRelease(r)).builds[id].Done()
    ensures !Wanted(Apply(q, DoRelease(r)), id) && NobodyWants(Apply(q, DoRelease(r)), id)
  {
    assert r in q.builds[id].holders <==> id in HeldBy(q.held, r);
  }

  lemma EnqueueRevives(q: Queue, a: Asked, id: BuildId)
    requires Inv(q) && id in q.builds && !q.builds[id].Done() && NobodyWants(q, id)
    ensures var t := Apply(q, DoEnqueue(a));
            && id in t.builds && !t.builds[id].Done()
            && (Wanted(t, id) <==> Revives(q, DoEnqueue(a), id))
            && (!Wanted(t, id) ==> NobodyWants(t, id))
  {
    var b, t := q.builds[id], Apply(q, DoEnqueue(a));
    assert Existing(q, b.key) == Some(id);
    if a.key != b.key || !Enqueue(q, a).Joined? {
      assert id != q.nextId;
      assert t.builds[id] == b && t.givenUp == q.givenUp;
      assert b.holders - t.givenUp == {};
    } else {
      assert t.builds[id] == Join(b, a) && t.givenUp == q.givenUp;
      if a.fromGoal {
        assert Join(b, a).holders == b.holders + {a.goal.value};
        assert (b.holders + {a.goal.value}) - q.givenUp == {a.goal.value} - q.givenUp;
        if a.goal.value !in q.givenUp {
          assert a.goal.value in t.builds[id].holders - t.givenUp;
        }
      } else {
        assert b.holders - q.givenUp == {};
      }
    }
  }

  /** No step of the run joins the build for somebody alive. */
  ghost predicate NobodyRevives(q: Queue, actions: seq<Action>, id: BuildId) {
    forall i | 0 <= i < |actions| && id in Run(q, actions[..i]).builds :: !Revives(Run(q, actions[..i]), actions[i], id)
  }

  /** Without such a step in between, the build that is cancelled is still wanted by nobody. */
  lemma {:induction false} NoJoinNoRace(q: Queue, actions: seq<Action>, id: BuildId)
    requires Inv(q) && id in q.builds && NobodyWants(q, id) && NobodyRevives(q, actions, id)
    ensures var t := Run(q, actions);
            Inv(t) && (id in t.builds && !t.builds[id].Done() ==> NobodyWants(t, id))
    decreases |actions|
  {
    AnswersNeverChange(q, actions);
    if actions != [] {
      var n := |actions| - 1;
      var s := Run(q, actions[..n]);
      AnswersNeverChange(q, actions[..n]);
      NobodyRevivesBefore(q, actions, id);
      NoJoinNoRace(q, actions[..n], id);
      UnwantedStep(s, actions[n], id);
    }
  }

  lemma NobodyRevivesBefore(q: Queue, actions: seq<Action>, id: BuildId)
    requires NobodyRevives(q, actions, id) && actions != []
    ensures var n := |actions| - 1;
            && NobodyRevives(q, actions[..n], id)
            && (id in Run(q, actions[..n]).builds ==> !Revives(Run(q, actions[..n]), actions[n], id))
  {
    var n := |actions| - 1;
    assert forall i | 0 <= i < n :: actions[..n][..i] == actions[..i] && actions[..n][i] == actions[i];
  }

  lemma UnwantedStep(s: Queue, a: Action, id: BuildId)
    requires Inv(s) && id < s.nextId
    requires id in s.builds ==> !Revives(s, a, id) && (s.builds[id].Done() || NobodyWants(s, id))
    ensures var t := Apply(s, a); id in t.builds && !t.builds[id].Done() ==> NobodyWants(t, id)
  {
    var t := Apply(s, a);
    StepStable(s, a);
    if id in t.builds && !t.builds[id].Done() {
      assert id in s.builds && !s.builds[id].Done();
      StepRevives(s, a, id);
    }
  }

  lemma Snoc(q: Queue, before: seq<Action>, a: Action)
    ensures Run(q, before + [a]) == Apply(Run(q, before), a)
  {
    assert (before + [a])[..|before|] == before;
  }

  const X: Key := ("x.drv", 0)
  const Y: Key := ("y.drv", 0)
  const FAILED := Response(false, "failed")

  /** A goal of a request that stops at the first failure. */
  function Asks(key: Key, r: RequestId): (a: Asked) {
    Asked(key, true, Some(r), None, Some(Options(1, false)), false)
  }

  /** Request 1 asks for two builds, and the first fails. */
  const GIVEN_UP := [DoEnqueue(Asks(X, 1)), DoEnqueue(Asks(Y, 1)), DoComplete(1, FAILED)]
  const JOINS := DoEnqueue(Asks(Y, 7))
  const CANCELS := DoCancelUnwanted(2)

  lemma AskedRun()
    ensures var q := Run(EMPTY, [DoEnqueue(Asks(X, 1))] + [DoEnqueue(Asks(Y, 1))]);
            && q.builds == map[1 := Join(NewBuild(X), Asks(X, 1)), 2 := Join(NewBuild(Y), Asks(Y, 1))]
            && q.byKey == map[X := 1, Y := 2] && q.givenUp == {} && q.keepsGoing == map[1 := false]
  {
    var first, second := DoEnqueue(Asks(X, 1)), DoEnqueue(Asks(Y, 1));
    assert [] + [first] == [first];
    Snoc(EMPTY, [], first);
    Snoc(EMPTY, [first], second);
    var q1 := Apply(EMPTY, first);
    assert q1.builds == map[1 := Join(NewBuild(X), Asks(X, 1))] && q1.nextId == 2 && q1.byKey == map[X := 1];
  }

  lemma GivenUpRun()
    ensures var q := Run(EMPTY, GIVEN_UP);
            && q.builds.Keys == {1, 2} && q.byKey == map[X := 1, Y := 2] && q.givenUp == {1}
            && q.builds[2] == NewBuild(Y).(fromGoal := true, holders := {1})
  {
    var asked := [DoEnqueue(Asks(X, 1))] + [DoEnqueue(Asks(Y, 1))];
    AskedRun();
    Snoc(EMPTY, asked, DoComplete(1, FAILED));
    assert asked + [DoComplete(1, FAILED)] == GIVEN_UP;
    var q := Run(EMPTY, asked);
    assert GivingUp(q, q.builds[1], FAILED) == {1};
  }

  /** A run in which nobody wants the second build, request 7 joins it, and the cancel takes it from request 7. */
  lemma CancelRaceHappens()
    ensures 2 in Run(EMPTY, GIVEN_UP).builds && NobodyWants(Run(EMPTY, GIVEN_UP), 2)
    ensures 2 in Run(EMPTY, GIVEN_UP + [JOINS]).builds && Wanted(Run(EMPTY, GIVEN_UP + [JOINS]), 2)
    ensures 7 in Run(EMPTY, GIVEN_UP + [JOINS]).builds[2].holders - Run(EMPTY, GIVEN_UP + [JOINS]).givenUp
    ensures var q := Run(EMPTY, GIVEN_UP + [JOINS] + [CANCELS]);
            2 in q.builds && 7 in q.builds[2].holders && q.builds[2].answer == Some(UNWANTED)
  {
    GivenUpRun();
    Snoc(EMPTY, GIVEN_UP, JOINS);
    Snoc(EMPTY, GIVEN_UP + [JOINS], CANCELS);
    var q := Run(EMPTY, GIVEN_UP);
    assert Existing(q, Y) == Some(2);
    var t := Apply(q, JOINS);
    assert t.builds[2].holders == {1, 7} && t.givenUp == {1};
    assert 7 in t.builds[2].holders - t.givenUp;
  }

  // ------------------------------------------------------ what one operation does

  /**
    An accepted `enqueue` answers the unfinished build of its key, an old one when there was one, and changes no
    other build.
   */
  lemma EnqueueLaw(q: Queue, a: Asked)
    requires Inv(q) && Enqueue(q, a).Joined?
    ensures var t, id := Enqueue(q, a).queue, Enqueue(q, a).id;
            && t.builds.Keys == q.builds.Keys + {id} && t.givenUp == q.givenUp
            && (forall other | other in q.builds && other != id :: t.builds[other] == q.builds[other])
            && t.builds[id].key == a.key && !t.builds[id].Done()
            && (forall u | u in q.builds && !q.builds[u].Done() && q.builds[u].key == a.key :: u == id)
            && (id in q.builds ==> !q.builds[id].Done())
  {
    var e := Existing(q, a.key);
    assert q.nextId !in q.builds;
    assert e.Some? ==> q.builds[e.value].key == a.key;
  }

  /** The asker is in the build, beside exactly those who were. */
  lemma EnqueueNotesAsker(q: Queue, a: Asked, r: RequestId)
    requires Inv(q) && Enqueue(q, a).Joined?
    ensures var t, id := Enqueue(q, a).queue, Enqueue(q, a).id;
            var was := if id in q.builds then q.builds[id] else NewBuild(a.key);
            && id in t.builds
            && (r in t.builds[id].holders <==> r in was.holders || (a.fromGoal && a.goal == Some(r)))
            && (r in t.builds[id].requests <==> r in was.requests || a.request == Some(r))
            && t.builds[id].standalone == was.standalone + (if a.goal.None? then 1 else 0)
  {
    assert q.nextId !in q.builds;
  }

  lemma NoteAskerLaw(q: Queue, a: Asked, id: BuildId, r: RequestId)
    ensures var t := NoteAsker(q, a, id);
            && (a.goal == Some(r) ==> && r in t.keepsGoing && r in t.maxJobs
                                      && (t.keepsGoing[r] <==> a.options.None? || a.options.value.keepGoing)
                                      && t.maxJobs[r] == if a.options.None? then None else Some(a.options.value.maxJobs))
            && (a.goal != Some(r) ==> && (r in t.keepsGoing <==> r in q.keepsGoing)
                                      && (r in q.keepsGoing ==> t.keepsGoing[r] == q.keepsGoing[r]))
    ensures HeldBy(NoteAsker(q, a, id).held, r)
         == HeldBy(q.held, r) + (if a.fromGoal && a.goal == Some(r) then {id} else {})
  {
  }

  lemma EnqueueNotes(q: Queue, a: Asked)
    requires Enqueue(q, a).Joined?
    ensures var t, u := Enqueue(q, a).queue, NoteAsker(q, a, Enqueue(q, a).id);
            t.held == u.held && t.keepsGoing == u.keepsGoing && t.maxJobs == u.maxJobs
  {
  }

  /** A goal's hold and its options are noted, and nobody else's change. */
  lemma EnqueueNotesOptions(q: Queue, a: Asked, r: RequestId)
    requires Enqueue(q, a).Joined?
    ensures var t, id := Enqueue(q, a).queue, Enqueue(q, a).id;
            && (a.goal == Some(r) ==> && r in t.keepsGoing && r in t.maxJobs
                                      && (t.keepsGoing[r] <==> a.options.None? || a.options.value.keepGoing)
                                      && t.maxJobs[r] == if a.options.None? then None else Some(a.options.value.maxJobs))
            && HeldBy(t.held, r) == HeldBy(q.held, r) + (if a.fromGoal && a.goal == Some(r) then {id} else {})
            && (a.goal != Some(r) ==> && (r in t.keepsGoing <==> r in q.keepsGoing)
                                      && (r in q.keepsGoing ==> t.keepsGoing[r] == q.keepsGoing[r]))
  {
    EnqueueNotes(q, a);
    NoteAskerLaw(q, a, Enqueue(q, a).id, r);
  }

  /** A build that is new waits, is wanted by its asker alone, and stands last in the list and first in the index. */
  lemma NewBuildLaw(q: Queue, a: Asked)
    requires Inv(q) && Enqueue(q, a).Joined? && Enqueue(q, a).id !in q.builds
    ensures var t, id := Enqueue(q, a).queue, Enqueue(q, a).id;
            && t.builds[id] == Build(a.key, None, Idle, None, a.fromGoal, if a.fromGoal then {a.goal.value} else {},
                                     if a.goal.None? then 1 else 0, if a.request.Some? then {a.request.value} else {}, {})
            && t.order == q.order + [id] && t.byKey == q.byKey[a.key := id] && id == q.nextId && t.nextId == id + 1
  {
    var id := Enqueue(q, a).id;
    assert id == q.nextId;
    assert a.fromGoal ==> {} + {a.goal.value} == {a.goal.value};
    assert a.request.Some? ==> {} + {a.request.value} == {a.request.value};
  }

  /** A build that is joined stays where it is and as it is, but for who wants it. */
  lemma JoinedBuildLaw(q: Queue, a: Asked)
    requires Inv(q) && Enqueue(q, a).Joined? && Enqueue(q, a).id in q.builds
    ensures var t, id := Enqueue(q, a).queue, Enqueue(q, a).id;
            var b, was := t.builds[id], q.builds[id];
            && b == was.(fromGoal := b.fromGoal, holders := b.holders, standalone := b.standalone, requests := b.requests)
            && (b.fromGoal <==> was.fromGoal || a.fromGoal)
            && t.order == q.order && t.byKey == q.byKey && t.nextId == q.nextId
  {
    assert q.nextId !in q.builds;
  }

  // ---------------------------------------------------------------- refusals

  /** The newest build of a key runs on a remote store; an unfinished one is always the newest. */
  ghost predicate RunsElsewhere(q: Queue, key: Key) {
    key in q.byKey && q.byKey[key] in q.builds && q.builds[q.byKey[key]].RunsRemotely()
  }

  /**
    Exactly which requests are refused: a goal without its request, and a delegated request for a build that runs on a
    remote store. Any other is accepted.
   */
  lemma RefusedIff(q: Queue, a: Asked)
    ensures Enqueue(q, a).GoalWithoutRequest? <==> a.fromGoal && a.goal.None?
    ensures Enqueue(q, a).DelegationLoop? <==> a.delegated && RunsElsewhere(q, a.key) && !(a.fromGoal && a.goal.None?)
  {
  }

  /** A delegated request is never joined to a build that runs on a remote store, before the step or after it. */
  lemma DelegatedJoinsNoRemote(q: Queue, a: Asked, id: BuildId)
    requires Inv(q) && a.delegated && Enqueue(q, a).Joined?
    ensures var t := Enqueue(q, a);
            && t.id in t.queue.builds && !t.queue.builds[t.id].RunsRemotely()
            && (id in q.builds && q.builds[id].key == a.key && !q.builds[id].Done() ==> !q.builds[id].RunsRemotely())
  {
    RefusedIff(q, a);
    assert q.nextId !in q.builds;
  }

  // ------------------------------------------------------------------ answers

  /** The response a step gives to the builds it ends. */
  function Given(a: Action): (r: Option<Response>) {
    match a
    case DoComplete(_, response) => Some(response)
    case DoCancelUnwanted(_) => Some(UNWANTED)
    case DoRelease(_) => Some(CANCELLED)
    case _ => None
  }

  /** Completing an unfinished build gives it that very response, and leaves the rest of the build as it was. */
  lemma CompleteAnswers(q: Queue, id: BuildId, response: Response)
    requires id in q.builds && !q.builds[id].Done()
    ensures var t := Apply(q, DoComplete(id, response));
            && Ended(q, DoComplete(id, response), id) && t.builds[id].answer == Some(response)
            && t.builds[id].holders == q.builds[id].holders && t.builds[id].worker == q.builds[id].worker
            && (forall other | other in q.builds && other != id :: other in t.builds && t.builds[other] == q.builds[other])
  {
  }

  lemma EndedWith(q: Queue, a: Action, id: BuildId)
    requires Inv(q) && Ended(q, a, id)
    ensures Given(a).Some? && Apply(q, a).builds[id].answer == Given(a)
  {
    HowBuildsEnd(q, a, id);
    if a.DoComplete? {
      CompleteAnswers(q, id, a.response);
    }
  }

  /** A build that a step brings in is unfinished. */
  lemma NewIsUnfinished(q: Queue, a: Action, id: BuildId)
    requires Inv(q) && id !in q.builds && id in Apply(q, a).builds
    ensures !Apply(q, a).builds[id].Done()
  {
  }

  /** In every run the answer of a finished build is the response of the step that ended it. */
  lemma {:induction false} AnswersComeFromEnds(actions: seq<Action>, id: BuildId) returns (i: nat)
    requires id in Run(EMPTY, actions).builds && Run(EMPTY, actions).builds[id].Done()
    ensures i < |actions| && Ended(Run(EMPTY, actions[..i]), actions[i], id)
    ensures Run(EMPTY, actions).builds[id].answer == Given(actions[i])
    decreases |actions|
  {
    var n := |actions| - 1;
    var q := Run(EMPTY, actions[..n]);
    RunKeeps(actions[..n]);
    if id !in q.builds {
      NewIsUnfinished(q, actions[n], id);
    }
    if id in q.builds && q.builds[id].Done() {
      i := AnswersComeFromEnds(actions[..n], id);
      assert actions[..n][..i] == actions[..i];
      StepStable(q, actions[n]);
    } else {
      i := n;
      EndedWith(q, actions[n], id);
    }
  }

  /** What a worker's start and end, and a client's coming and going, do to the one build. */
  lemma TouchLaw(q: Queue, id: BuildId, touch: Touch)
    requires id in q.builds
    ensures var b, c := q.builds[id], Apply(q, DoTouch(id, touch)).builds[id];
            && c.answer == b.answer && c.holders == b.holders && c.requests == b.requests && c.standalone == b.standalone
            && (touch.Start? ==> c.worker == Working(false) && (c.RunsRemotely() <==> touch.target.Remote?))
            && (touch.End? ==> !c.RunsRemotely() && !c.worker.Working?)
            && (touch.Subscribe? ==> touch.client in c.subscribers && c.subscribers - {touch.client} <= b.subscribers)
            && (touch.Unsubscribe? ==> touch.client !in c.subscribers && b.subscribers - {touch.client} <= c.subscribers)
  {
  }

  /** A release takes the request out of the builds it holds, and nobody else out of any build. */
  lemma ReleaseLaw(q: Queue, r: RequestId, id: BuildId, other: RequestId)
    requires Inv(q) && id in q.builds
    ensures var b, c := q.builds[id], Release(q, r).builds[id];
            && (id !in HeldBy(q.held, r) ==> c == b)
            && (id in HeldBy(q.held, r) ==> r !in c.holders && r !in c.requests)
            && c.standalone == b.standalone && c.subscribers == b.subscribers
            && (other != r ==> (other in c.holders <==> other in b.holders) && (other in c.requests <==> other in b.requests))
            && (other != r ==> HeldBy(Release(q, r).held, other) == HeldBy(q.held, other))
  {
  }

  /** A request is newly given up exactly when a build it holds fails and it does not keep going. */
  lemma GivesUpIff(q: Queue, a: Action, h: RequestId)
    requires h !in q.givenUp
    ensures h in Apply(q, a).givenUp <==>
            && a.DoComplete? && !a.response.success
            && a.id in q.builds && !q.builds[a.id].Done() && h in q.builds[a.id].holders
            && h in q.keepsGoing && !q.keepsGoing[h]
  {
    match a
    case DoEnqueue(asked) => assert Apply(q, a).givenUp == q.givenUp;
    case _ =>
  }

  /** A release ends exactly the unfinished builds that nobody but the request wanted. */
  lemma ReleaseEndsIff(q: Queue, r: RequestId, id: BuildId)
    requires Inv(q) && id in q.builds && !q.builds[id].Done()
    ensures Ended(q, DoRelease(r), id) <==> q.builds[id].holders == {r} && q.builds[id].standalone == 0
  {
    assert r in q.builds[id].holders <==> id in HeldBy(q.held, r);
  }

  /** A build that ends without completing fails, and its worker is told to stop. */
  lemma EndedBuildStops(q: Queue, a: Action, id: BuildId)
    requires Inv(q) && Ended(q, a, id) && !a.DoComplete?
    ensures var b := Apply(q, a).builds[id];
            !b.answer.value.success && b.worker != Working(false) && (b.worker == Idle <==> q.builds[id].worker == Idle)
  {
    HowBuildsEnd(q, a, id);
  }

  // --------------------------------------------------------- forgetting a request

  /** No field mentions the request as a holder, as given up, or with its options. */
  ghost predicate Forgotten(q: Queue, r: RequestId) {
    && (forall id | id in q.builds :: r !in q.builds[id].holders)
    && r !in q.held && r !in q.givenUp && r !in q.maxJobs && r !in q.keepsGoing
  }

  lemma ReleaseForgets(q: Queue, r: RequestId)
    requires Inv(q)
    ensures Forgotten(Release(q, r), r)
  {
    var t := Release(q, r);
    forall id | id in t.builds
      ensures r !in t.builds[id].holders
    {
      assert r in q.builds[id].holders <==> id in HeldBy(q.held, r);
    }
  }

  /** A released request stays forgotten until it asks again, and a second release finds nothing. */
  lemma {:induction false} StaysForgotten(q: Queue, actions: seq<Action>, r: RequestId)
    requires Inv(q) && Forgotten(q, r)
    requires forall i | 0 <= i < |actions| :: actions[i].DoEnqueue? ==> actions[i].asked.goal != Some(r)
    ensures Forgotten(Run(q, actions), r)
    ensures Release(Run(q, actions), r) == Run(q, actions)
    decreases |actions|
  {
    if actions != [] {
      var n := |actions| - 1;
      StaysForgotten(q, actions[..n], r);
      AnswersNeverChange(q, actions[..n]);
      ForgottenStep(Run(q, actions[..n]), actions[n], r);
    }
    var t := Run(q, actions);
    assert Release(t, r).builds == t.builds;
    assert t.held - {r} == t.held && t.maxJobs - {r} == t.maxJobs && t.keepsGoing - {r} == t.keepsGoing;
  }

  lemma ForgottenStep(q: Queue, a: Action, r: RequestId)
    requires Inv(q) && Forgotten(q, r) && (a.DoEnqueue? ==> a.asked.goal != Some(r))
    ensures Forgotten(Apply(q, a), r)
  {
    match a
    case DoEnqueue(asked) =>
      if Enqueue(q, asked).Joined? {
        var t, id := Enqueue(q, asked).queue, Enqueue(q, asked).id;
        NoteForgets(q, asked, id, r);
        forall i | i in t.builds
          ensures r !in t.builds[i].holders
        {
          if i != id { assert t.builds[i] == q.builds[i]; }
        }
      }
    case DoComplete(_, _) =>
    case DoCancelUnwanted(_) =>
    case DoRelease(_) =>
    case DoPrune =>
    case DoTouch(_, _) =>
  }

  lemma NoteForgets(q: Queue, a: Asked, id: BuildId, r: RequestId)
    requires Forgotten(q, r) && a.goal != Some(r)
    ensures var t := NoteAsker(q, a, id); r !in t.held && r !in t.givenUp && r !in t.maxJobs && r !in t.keepsGoing
  {
  }

  // --------------------------------------------------------------- no orphans

  /** Somebody waits for each unfinished build. */
  ghost predicate NoOrphans(q: Queue) {
    forall id | id in q.builds && !q.builds[id].Done() :: q.builds[id].holders != {} || q.builds[id].standalone > 0
  }

  /** When goal requests enqueue as such, no run leaves an unfinished build that nobody asked for. */
  lemma {:induction false} RunLeavesNoOrphans(actions: seq<Action>)
    requires forall i | 0 <= i < |actions| ::
               actions[i].DoEnqueue? ==> (actions[i].asked.goal.Some? ==> actions[i].asked.fromGoal)
    ensures NoOrphans(Run(EMPTY, actions))
    decreases |actions|
  {
    if actions != [] {
      var n := |actions| - 1;
      RunLeavesNoOrphans(actions[..n]);
      RunKeeps(actions[..n]);
      OrphanStep(Run(EMPTY, actions[..n]), actions[n]);
    }
  }

  lemma OrphanStep(q: Queue, a: Action)
    requires Inv(q) && NoOrphans(q)
    requires a.DoEnqueue? && a.asked.goal.Some? ==> a.asked.fromGoal
    ensures NoOrphans(Apply(q, a))
  {
    match a
    case DoEnqueue(asked) => EnqueueLeavesNoOrphans(q, asked);
    case DoComplete(_, _) =>
    case DoCancelUnwanted(_) =>
    case DoRelease(_) =>
    case DoPrune =>
    case DoTouch(_, _) =>
  }

  lemma EnqueueLeavesNoOrphans(q: Queue, asked: Asked)
    requires Inv(q) && NoOrphans(q) && (asked.goal.Some? ==> asked.fromGoal)
    ensures NoOrphans(Apply(q, DoEnqueue(asked)))
  {
    var t := Apply(q, DoEnqueue(asked));
    forall id | id in t.builds && !t.builds[id].Done()
      ensures t.builds[id].holders != {} || t.builds[id].standalone > 0
    {
      if (id !in q.builds || t.builds[id] != q.builds[id]) && asked.goal.Some? {
        assert asked.goal.value in t.builds[id].holders;
      }
    }
  }
}
