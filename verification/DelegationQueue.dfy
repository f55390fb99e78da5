/**
  The queue of one instance behind the machine of `Delegation`: where the two match, they refuse the same delegated
  requests, join the others to the same build, and match again after each of these steps.
 */
module DelegationQueue {
  import opened Optional
  import Q = QueueModel
  import QueueRuns
  import D = Delegation

  ghost predicate Alike(b: Q.Build, x: D.Build) {
    && b.key == x.key && b.Done() == x.done && b.worker.Working? == x.building
    && (b.placed.Some? && b.placed.value.Remote? <==> x.placed.Some? && x.placed.value.Remote?)
  }

  /** The queue is what the machine knows of the instance. The machine also remembers builds the queue has dropped. */
  ghost predicate Matches(q: Q.Queue, s: D.System, at: D.Instance) {
    && q.nextId == D.NextId(s, at)
    && (forall key :: key in q.byKey <==> (at, key) in s.index)
    && (forall key | key in q.byKey :: q.byKey[key] == s.index[(at, key)])
    && (forall id | id in q.builds :: D.Ref(at, id) in s.builds && Alike(q.builds[id], s.builds[D.Ref(at, id)]))
  }

  lemma ExistingAgrees(q: Q.Queue, s: D.System, at: D.Instance, key: Q.Key)
    requires Q.Inv(q) && Matches(q, s, at)
    ensures var e := Q.Existing(q, key);
            D.Existing(s, at, key) == if e.None? then None else Some(D.Ref(at, e.value))
  {
  }

  /** The queue refuses a delegated request exactly where the guard of the machine does. */
  lemma RefusalsAgree(q: Q.Queue, s: D.System, at: D.Instance, a: Q.Asked)
    requires Q.Inv(q) && Matches(q, s, at) && a.delegated && !(a.fromGoal && a.goal.None?)
    ensures Q.Enqueue(q, a).DelegationLoop? <==> D.Refuses(s, at, a.key)
    ensures Q.Enqueue(q, a).Joined? <==> !D.Refuses(s, at, a.key)
  {
    ExistingAgrees(q, s, at, a.key);
  }

  lemma NewMatches(q: Q.Queue, s: D.System, at: D.Instance, a: Q.Asked)
    requires Q.Inv(q) && Matches(q, s, at) && Q.Enqueue(q, a).Joined? && Q.Enqueue(q, a).id !in q.builds
    ensures Matches(Q.Enqueue(q, a).queue, D.Create(s, at, a.key), at) && Q.Enqueue(q, a).id == D.NextId(s, at)
  {
    var t, u := Q.Enqueue(q, a).queue, D.Create(s, at, a.key);
    forall id | id in t.builds
      ensures D.Ref(at, id) in u.builds && Alike(t.builds[id], u.builds[D.Ref(at, id)])
    {
      if id != q.nextId {
        assert D.Ref(at, id) in s.builds;
      }
    }
  }

  /** One build changed in both, and they still match. */
  lemma OneBuildMatches(q: Q.Queue, t: Q.Queue, s: D.System, at: D.Instance, id: Q.BuildId, x: D.Build)
    requires Matches(q, s, at) && id in q.builds && id in t.builds && Alike(t.builds[id], x)
    requires t.builds == q.builds[id := t.builds[id]] && t.byKey == q.byKey && t.nextId == q.nextId
    ensures Matches(t, s.(builds := s.builds[D.Ref(at, id) := x]), at)
  {
  }

  /** A request that joins changes one build, and nothing of it the machine looks at. */
  lemma JoiningChanges(q: Q.Queue, a: Q.Asked)
    requires q.nextId !in q.builds && Q.Enqueue(q, a).Joined? && Q.Enqueue(q, a).id in q.builds
    ensures var id, t := Q.Enqueue(q, a).id, Q.Enqueue(q, a).queue;
            && id in t.builds && t.builds == q.builds[id := t.builds[id]] && t.byKey == q.byKey && t.nextId == q.nextId
            && t.builds[id].key == q.builds[id].key && t.builds[id].answer == q.builds[id].answer
            && t.builds[id].worker == q.builds[id].worker && t.builds[id].placed == q.builds[id].placed
  {
  }

  lemma JoinedMatches(q: Q.Queue, s: D.System, at: D.Instance, a: Q.Asked)
    requires q.nextId !in q.builds && Matches(q, s, at) && Q.Enqueue(q, a).Joined? && Q.Enqueue(q, a).id in q.builds
    ensures Matches(Q.Enqueue(q, a).queue, s, at)
  {
    var id := Q.Enqueue(q, a).id;
    JoiningChanges(q, a);
    OneBuildMatches(q, Q.Enqueue(q, a).queue, s, at, id, s.builds[D.Ref(at, id)]);
    assert s.builds[D.Ref(at, id) := s.builds[D.Ref(at, id)]] == s.builds;
  }

  /** A client's request: both join the unfinished build or create the same new one. */
  lemma EnqueueMatches(q: Q.Queue, s: D.System, at: D.Instance, a: Q.Asked)
    requires Q.Inv(q) && Matches(q, s, at) && !a.delegated && Q.Enqueue(q, a).Joined?
    ensures Matches(Q.Enqueue(q, a).queue, D.Apply(s, D.Enqueue(at, a.key), true), at)
  {
    ExistingAgrees(q, s, at, a.key);
    assert q.nextId !in q.builds;
    if Q.Enqueue(q, a).id in q.builds {
      JoinedMatches(q, s, at, a);
    } else {
      NewMatches(q, s, at, a);
    }
  }

  /** A delegated request that is not refused: the machine notes the wait for the very build the queue answers. */
  lemma AcceptMatches(q: Q.Queue, s: D.System, r: D.Request, a: Q.Asked)
    requires Q.Inv(q) && Matches(q, s, r.to) && a.delegated && a.key == r.key && Q.Enqueue(q, a).Joined?
    ensures var t := D.Accept(s, r);
            && Matches(Q.Enqueue(q, a).queue, t, r.to)
            && (r.from, r.attempt) in t.joined && t.joined[(r.from, r.attempt)] == D.Ref(r.to, Q.Enqueue(q, a).id)
  {
    ExistingAgrees(q, s, r.to, a.key);
    assert q.nextId !in q.builds;
    if Q.Enqueue(q, a).id in q.builds {
      JoinedMatches(q, s, r.to, a);
    } else {
      NewMatches(q, s, r.to, a);
    }
  }

  /** An answer that is set is a build that finishes. */
  lemma CompleteMatches(q: Q.Queue, s: D.System, at: D.Instance, id: Q.BuildId, response: Q.Response)
    requires Matches(q, s, at) && id in q.builds && !q.builds[id].Done()
    ensures Matches(Q.Apply(q, Q.DoComplete(id, response)), D.Apply(s, D.Finish(D.Ref(at, id)), true), at)
  {
    OneBuildMatches(q, Q.Apply(q, Q.DoComplete(id, response)), s, at, id, s.builds[D.Ref(at, id)].(done := true));
  }

  lemma CancelMatches(q: Q.Queue, s: D.System, at: D.Instance, id: Q.BuildId)
    requires Matches(q, s, at) && id in q.builds && !q.builds[id].Done()
    ensures Matches(Q.CancelUnwanted(q, id), D.Apply(s, D.Finish(D.Ref(at, id)), true), at)
  {
    OneBuildMatches(q, Q.CancelUnwanted(q, id), s, at, id, s.builds[D.Ref(at, id)].(done := true));
  }

  /** A worker that starts is an assignment, to a remote store or not. */
  lemma StartMatches(q: Q.Queue, s: D.System, at: D.Instance, id: Q.BuildId, place: Q.Target, target: D.Target)
    requires Matches(q, s, at) && id in q.builds && q.builds[id].worker == Q.Idle && place.Remote? == target.Remote?
    ensures Matches(Q.Apply(q, Q.DoTouch(id, Q.Start(place))), D.Apply(s, D.Assign(D.Ref(at, id), target), true), at)
  {
    OneBuildMatches(q, Q.Apply(q, Q.DoTouch(id, Q.Start(place))), s, at, id, D.Started(s.builds[D.Ref(at, id)], target));
  }

  lemma EndMatches(q: Q.Queue, s: D.System, at: D.Instance, id: Q.BuildId)
    requires Matches(q, s, at) && id in q.builds && q.builds[id].worker.Working?
    ensures Matches(Q.Apply(q, Q.DoTouch(id, Q.End)), D.Apply(s, D.WorkerEnds(D.Ref(at, id)), true), at)
  {
    OneBuildMatches(q, Q.Apply(q, Q.DoTouch(id, Q.End)), s, at, id, s.builds[D.Ref(at, id)].(building := false));
  }
}
