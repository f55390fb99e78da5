/**
  `BuildQueue` and `QueuedBuild` as objects that change in place. Each method's contract ties the new state
  to the value model, whose invariant and runs are proved in `QueueRuns`.
 */
module BuildQueues {
  import opened Optional
  import opened QueueModel
  import QueueRuns
  import Answers
  import Retries

  datatype Ticket =
    | Accepted(id: BuildId, answer: Answers.Answer<Response>)
    | NoGoalRequest
    | LoopRefused

  /** The options of a goal request, noted. */
  ghost function NoteOptionsOf(q: Queue, a: Asked): (t: Queue) {
    if a.goal.None? then q
    else
      q.(maxJobs := q.maxJobs[a.goal.value := if a.options.None? then None else Some(a.options.value.maxJobs)],
         keepsGoing := q.keepsGoing[a.goal.value := a.options.None? || a.options.value.keepGoing])
  }

  ghost function NoteHoldOf(q: Queue, a: Asked, id: BuildId): (t: Queue) {
    if a.fromGoal && a.goal.Some?
    then q.(held := q.held[a.goal.value := HeldBy(q.held, a.goal.value) + {id}])
    else q
  }

  class QueuedBuild {
    const id: BuildId
    const key: Key
    const answer: Answers.Answer<Response>
    var worker: Worker
    var placed: Option<Target>
    var fromGoal: bool
    var holders: set<RequestId>
    var standalone: nat
    var requests: set<RequestId>
    var subscribers: set<ClientId>
    var retries: nat
    var storeFailures: map<Retries.StoreId, nat>

    constructor (id: BuildId, key: Key)
      ensures this.id == id && this.key == key
      ensures fresh(answer) && answer.Valid() && Settled()
      ensures View() == NewBuild(key) && Attempts() == Retries.NONE
    {
      this.id, this.key := id, key;
      answer := new Answers.Answer<Response>();
      worker, placed, fromGoal, holders, standalone, requests, subscribers := Idle, None, false, {}, 0, {}, {};
      retries, storeFailures := 0, map[];
    }

    /** The queue answers with a response, never with an exception. */
    ghost predicate Settled()
      reads answer
    {
      answer.Valid() && answer.error.None?
    }

    ghost function View(): (b: Build)
      reads this, answer
    {
      Build(key, if answer.stored.Some? then Some(answer.stored.value) else None,
            worker, placed, fromGoal, holders, standalone, requests, subscribers)
    }

    ghost function Attempts(): (a: Retries.Attempts)
      reads this
    {
      Retries.Attempts(retries, storeFailures)
    }

    predicate IsBlacklisted(store: Retries.StoreId)
      reads this
      ensures IsBlacklisted(store) == Retries.Blacklisted(Attempts(), store)
    {
      store in storeFailures && storeFailures[store] >= Retries.MAX_STORE_RETRIES
    }

    /** The attempt on a store failed: the build waits for another one. */
    method ResetForRetry(store: Retries.StoreId)
      modifies this
      ensures Attempts() == Retries.Failed(old(Attempts()), store)
      ensures View() == Touched(old(View()), End)
    {
      retries := retries + 1;
      worker := Idle;
      storeFailures := storeFailures[store := (if store in storeFailures then storeFailures[store] else 0) + 1];
    }

    /** Adds the asker: as a holder, as a standalone want, with its request. */
    method AddAsker(a: Asked)
      modifies this
      ensures View() == Join(old(View()), a)
    {
      fromGoal := fromGoal || a.fromGoal;
      if a.fromGoal && a.goal.Some? {
        holders := holders + {a.goal.value};
      }
      if a.goal.None? {
        standalone := standalone + 1;
      }
      if a.request.Some? {
        requests := requests + {a.request.value};
      }
    }

    method SetAnswer(response: Response)
      requires Settled() && !View().Done()
      modifies answer
      ensures Settled() && View() == old(View()).(answer := Some(response)) && answer.Reads() == Answers.Value(response)
    {
      var ok := answer.Set(response);
    }

    method CancelWorker()
      modifies this
      ensures View() == old(View()).(worker := if old(worker).Working? then Working(true) else Idle)
    {
      if worker.Working? {
        worker := Working(true);
      }
    }

    /** `_cancel_locked` on this build: its worker is cancelled, and whoever waits is answered. */
    method Cancel(response: Response)
      requires Settled() && answer != this as object
      modifies this, answer
      ensures Settled() && View() == Cancelled(old(View()), response)
    {
      CancelWorker();
      if !answer.Done() {
        SetAnswer(response);
      }
    }

    /** A request lets go of this build; with nobody left, an unfinished build ends. */
    method LetGoOf(r: RequestId)
      requires Settled() && answer != this as object
      modifies this, answer
      ensures Settled() && View() == LetGo(old(View()), r)
    {
      holders := holders - {r};
      requests := requests - {r};
      if holders == {} && standalone == 0 && !answer.Done() {
        Cancel(CANCELLED);
      }
    }

    /** What the scheduler and the log stream change. */
    method TouchWith(t: Touch)
      modifies this
      ensures View() == Touched(old(View()), t)
    {
      match t {
        case Start(target) =>
          worker, placed := Working(false), Some(target);
        case End =>
          worker := Idle;
        case Subscribe(client) =>
          subscribers := subscribers + {client};
        case Unsubscribe(client) =>
          subscribers := subscribers - {client};
      }
    }
  }

  // ------------------------------------------------- the indices, apart from the heap

  type Index = map<BuildId, QueuedBuild>

  ghost function AnswersOf(byId: Index): (s: set<object>) {
    set id | id in byId :: byId[id].answer as object
  }

  ghost function Objects(byId: Index): (s: set<object>) {
    (set id | id in byId :: byId[id] as object) + AnswersOf(byId)
  }

  /** The three indices speak of the same objects, and no two builds share an answer. */
  ghost predicate Wiring(queue: seq<QueuedBuild>, byPath: map<Key, QueuedBuild>, byId: Index) {
    && (forall id | id in byId :: byId[id].id == id)
    && (forall i, j | i in byId && j in byId && i != j :: byId[i].answer != byId[j].answer)
    && (forall i | 0 <= i < |queue| :: queue[i].id in byId && byId[queue[i].id] == queue[i])
    && (forall k | k in byPath :: byPath[k].id in byId && byId[byPath[k].id] == byPath[k])
  }

  ghost predicate AllSettled(byId: Index)
    reads AnswersOf(byId)
  {
    forall id | id in byId :: byId[id].Settled()
  }

  ghost function IdsOf(queue: seq<QueuedBuild>): (s: seq<BuildId>) {
    seq(|queue|, i requires 0 <= i < |queue| => queue[i].id)
  }

  ghost function KeysOf(byPath: map<Key, QueuedBuild>): (m: map<Key, BuildId>) {
    map k | k in byPath :: byPath[k].id
  }

  ghost function BuildsOf(byId: Index): (m: map<BuildId, Build>)
    reads Objects(byId)
  {
    map id | id in byId :: byId[id].View()
  }

  lemma AddWiring(queue: seq<QueuedBuild>, byPath: map<Key, QueuedBuild>, byId: Index, build: QueuedBuild)
    requires Wiring(queue, byPath, byId) && build.id !in byId && build.answer !in AnswersOf(byId)
    ensures Wiring(queue + [build], byPath[build.key := build], byId[build.id := build])
  {
    var all := byId[build.id := build];
    forall i, j | i in all && j in all && i != j
      ensures all[i].answer != all[j].answer
    {
      if i in byId { assert byId[i].answer in AnswersOf(byId); }
      if j in byId { assert byId[j].answer in AnswersOf(byId); }
    }
  }

  lemma AddObjects(byId: Index, build: QueuedBuild)
    requires build.id !in byId
    ensures Objects(byId[build.id := build]) == Objects(byId) + {build, build.answer}
  {
    var all := byId[build.id := build];
    assert all[build.id] == build;
    forall o: object | o in Objects(byId) + {build, build.answer}
      ensures o in Objects(all)
    {
      if id :| id in byId && o == byId[id] { assert all[id] == o; }
      if id :| id in byId && o == byId[id].answer { assert all[id].answer == o; }
    }
  }

  lemma AddNames(queue: seq<QueuedBuild>, byPath: map<Key, QueuedBuild>, build: QueuedBuild)
    ensures IdsOf(queue + [build]) == IdsOf(queue) + [build.id]
    ensures KeysOf(byPath[build.key := build]) == KeysOf(byPath)[build.key := build.id]
  {
  }

  lemma AddBuilds(byId: Index, before: map<BuildId, Build>, build: QueuedBuild)
    requires before.Keys == byId.Keys && forall id | id in byId :: byId[id].View() == before[id]
    ensures BuildsOf(byId[build.id := build]) == before[build.id := build.View()]
  {
  }

  /** When one build changed since `before`, the builds changed in that one alone. */
  lemma OneBuildChanged(byId: Index, before: map<BuildId, Build>, id: BuildId)
    requires id in byId && before.Keys == byId.Keys
    requires forall j | j in byId && j != id :: byId[j].View() == before[j]
    ensures BuildsOf(byId) == before[id := byId[id].View()]
  {
  }

  class BuildQueue {
    var queue: seq<QueuedBuild>
    var byPath: map<Key, QueuedBuild>
    var byId: map<BuildId, QueuedBuild>
    var held: Holds
    var givenUp: set<RequestId>
    var maxJobs: map<RequestId, Option<int>>
    var keepsGoing: map<RequestId, bool>
    var nextId: BuildId

    /** The builds and their answers. */
    ghost function Parts(): (s: set<object>)
      reads this`byId
    {
      Objects(byId)
    }

    ghost predicate Wired()
      reads this`queue, this`byPath, this`byId, AnswersOf(byId)
    {
      this !in Parts() && Wiring(queue, byPath, byId) && AllSettled(byId)
    }

    ghost function View(): (q: Queue)
      reads this, Parts()
    {
      Queue(IdsOf(queue), BuildsOf(byId), KeysOf(byPath), held, givenUp, maxJobs, keepsGoing, nextId)
    }

    ghost predicate Valid()
      reads this, Parts()
    {
      Wired() && Inv(View())
    }

    constructor ()
      ensures Valid() && View() == EMPTY && Parts() == {}
    {
      queue, byPath, byId, held, givenUp := [], map[], map[], map[], {};
      maxJobs, keepsGoing, nextId := map[], map[], 1;
    }

    // ---------------------------------------------------------------- enqueue

    /** The build the dedup index names. */
    function Found(key: Key): (r: Option<QueuedBuild>)
      reads this
    {
      if key in byPath then Some(byPath[key]) else None
    }

    lemma FoundIsExisting(key: Key)
      requires Wired()
      ensures Existing(View(), key) == if Found(key).None? then None else Some(Found(key).value.id)
    {
    }

    method NoteOptions(a: Asked)
      requires Wired()
      modifies this`maxJobs, this`keepsGoing
      ensures Wired()
      ensures View() == NoteOptionsOf(old(View()), a)
    {
      if a.goal.Some? {
        maxJobs := maxJobs[a.goal.value := if a.options.None? then None else Some(a.options.value.maxJobs)];
        keepsGoing := keepsGoing[a.goal.value := a.options.None? || a.options.value.keepGoing];
      }
    }

    /** `_hold_locked`, on the side of the request. */
    method HoldLocked(a: Asked, id: BuildId)
      requires Wired()
      modifies this`held
      ensures Wired()
      ensures View() == NoteHoldOf(old(View()), a, id)
    {
      if a.fromGoal && a.goal.Some? {
        held := held[a.goal.value := HeldBy(held, a.goal.value) + {id}];
      }
    }

    /** Adds the asker to a queued build. */
    method JoinLocked(build: QueuedBuild, a: Asked)
      requires Wired() && build.id in byId && byId[build.id] == build
      modifies build
      ensures Wired()
      ensures View() == old(View()).(builds := old(View()).builds[build.id := Join(old(View()).builds[build.id], a)])
    {
      ghost var before := BuildsOf(byId);
      build.AddAsker(a);
      OneBuildChanged(byId, before, build.id);
    }

    /** Replaces the list and both indices. */
    method Install(list: seq<QueuedBuild>, keys: map<Key, QueuedBuild>, ids: Index, next: BuildId)
      requires this !in Objects(ids) && Wiring(list, keys, ids) && AllSettled(ids)
      modifies this`queue, this`byPath, this`byId, this`nextId
      ensures Wired() && byId == ids && queue == list && byPath == keys
      ensures View() == old(View()).(order := IdsOf(list), builds := old(BuildsOf(ids)), byKey := KeysOf(keys), nextId := next)
    {
      queue, byPath, byId, nextId := list, keys, ids, next;
    }

    /** A new build at the end of the list and in both indices. */
    method AddLocked(build: QueuedBuild)
      requires Wired() && build.id == nextId && nextId !in byId && build.Settled()
      requires build !in Parts() && build.answer !in Parts() && build.answer != this as object
      modifies this`queue, this`byPath, this`byId, this`nextId
      ensures Wired()
      ensures Parts() == old(Parts()) + {build, build.answer}
      ensures var q := old(View());
              View() == q.(order := q.order + [build.id], builds := q.builds[build.id := build.View()],
                           byKey := q.byKey[build.key := build.id], nextId := build.id + 1)
    {
      AddWiring(queue, byPath, byId, build);
      AddObjects(byId, build);
      AddNames(queue, byPath, build);
      AddBuilds(byId, BuildsOf(byId), build);
      Install(queue + [build], byPath[build.key := build], byId[build.id := build], nextId + 1);
    }

    /** Notes the asker's options and its hold. */
    method NoteAskerLocked(a: Asked, id: BuildId)
      requires Wired()
      modifies this`maxJobs, this`keepsGoing, this`held
      ensures Wired() && View() == NoteHoldOf(NoteOptionsOf(old(View()), a), a, id)
    {
      NoteOptions(a);
      HoldLocked(a, id);
    }

    /** The build is queued and not done: the asker joins it. */
    method AskAgain(build: QueuedBuild, a: Asked)
      requires Wired() && (a.fromGoal ==> a.goal.Some?)
      requires Existing(View(), a.key) == Some(build.id) && byId[build.id] == build
      requires !View().builds[build.id].Done() && !(a.delegated && View().builds[build.id].RunsRemotely())
      modifies this`maxJobs, this`keepsGoing, this`held, build
      ensures Wired() && QueueModel.Enqueue(old(View()), a) == Joined(View(), build.id)
    {
      EnqueueJoins(View(), a, build.id);
      NoteAskerLocked(a, build.id);
      JoinLocked(build, a);
    }

    /** A new build joins the list and both indices. */
    method QueueNew(a: Asked) returns (build: QueuedBuild)
      requires Wired() && nextId !in byId
      modifies this`queue, this`byPath, this`byId, this`nextId
      ensures Wired() && Parts() == old(Parts()) + {build, build.answer} && fresh(build) && fresh(build.answer)
      ensures build.id == old(nextId) && build.id in byId && byId[build.id] == build
      ensures var q := old(View());
              View() == q.(order := q.order + [q.nextId],
                           builds := q.builds[q.nextId := Join(NewBuild(a.key), a)],
                           byKey := q.byKey[a.key := q.nextId], nextId := q.nextId + 1)
    {
      build := Fresh(nextId, a);
      AddLocked(build);
    }

    /** No build of the key is unfinished: a new one is queued. */
    method AskAnew(a: Asked) returns (build: QueuedBuild)
      requires Wired() && nextId !in byId && (a.fromGoal ==> a.goal.Some?)
      requires var e := Existing(View(), a.key);
               e.Some? ==> View().builds[e.value].Done() && !(a.delegated && View().builds[e.value].RunsRemotely())
      modifies this
      ensures Wired() && Parts() == old(Parts()) + {build, build.answer} && fresh(build) && fresh(build.answer)
      ensures build.id in byId && byId[build.id] == build
      ensures QueueModel.Enqueue(old(View()), a) == Joined(View(), build.id)
    {
      EnqueueCreates(View(), a);
      NoteAskerLocked(a, nextId);
      assert Parts() == old(Parts());
      build := QueueNew(a);
    }

    /** A request that is not refused joins the unfinished build of its key, or gets a new one. */
    method AskLocked(existing: Option<QueuedBuild>, a: Asked) returns (t: Ticket)
      requires Wired() && nextId !in byId && (a.fromGoal ==> a.goal.Some?) && existing == Found(a.key)
      requires existing.Some? ==> !(a.delegated && existing.value.View().RunsRemotely())
      modifies this, Parts()
      ensures Wired() && fresh(Parts() - old(Parts()))
      ensures t.Accepted? && t.id in byId && t.answer == byId[t.id].answer
      ensures QueueModel.Enqueue(old(View()), a) == Joined(View(), t.id)
    {
      FoundIsExisting(a.key);
      if existing.Some? && !existing.value.answer.Done() {
        AskAgain(existing.value, a);
        return Accepted(existing.value.id, existing.value.answer);
      }
      var build := AskAnew(a);
      t := Accepted(build.id, build.answer);
    }

    /** What `enqueue` does under the lock. */
    method EnqueueLocked(a: Asked) returns (t: Ticket)
      requires Wired() && nextId !in byId
      modifies this, Parts()
      ensures Wired() && fresh(Parts() - old(Parts()))
      ensures match QueueModel.Enqueue(old(View()), a)
              case Joined(q, id) => View() == q && id in byId && t == Accepted(id, byId[id].answer)
              case GoalWithoutRequest => View() == old(View()) && t == NoGoalRequest
              case DelegationLoop => View() == old(View()) && t == LoopRefused
    {
      if a.fromGoal && a.goal.None? {
        return NoGoalRequest;
      }
      var existing := Found(a.key);
      FoundIsExisting(a.key);
      if a.delegated && existing.Some? && existing.value.worker.Working?
         && existing.value.placed.Some? && existing.value.placed.value != Local {
        return LoopRefused;
      }
      t := AskLocked(existing, a);
    }

    /** Adds a build, or joins the one that is queued; refuses a delegated request that came back around. */
    method Enqueue(a: Asked) returns (t: Ticket)
      requires Valid()
      modifies this, Parts()
      ensures Valid() && fresh(Parts() - old(Parts()))
      ensures match QueueModel.Enqueue(old(View()), a)
              case Joined(q, id) => View() == q && id in byId && t == Accepted(id, byId[id].answer)
              case GoalWithoutRequest => View() == old(View()) && t == NoGoalRequest
              case DelegationLoop => View() == old(View()) && t == LoopRefused
    {
      QueueRuns.StepKeeps(View(), DoEnqueue(a));
      assert nextId !in View().builds;
      t := EnqueueLocked(a);
    }

    // ------------------------------------------------- completing and cancelling

    method AnswerLocked(build: QueuedBuild, response: Response)
      requires Wired() && build.id in byId && byId[build.id] == build && !build.View().Done()
      modifies build.answer
      ensures Wired() && build.answer.Reads() == Answers.Value(response)
      ensures var q := old(View());
              View() == q.(builds := q.builds[build.id := q.builds[build.id].(answer := Some(response))])
    {
      ghost var before := BuildsOf(byId);
      build.SetAnswer(response);
      OneBuildChanged(byId, before, build.id);
    }

    method CancelLocked(build: QueuedBuild, response: Response)
      requires Wired() && build.id in byId && byId[build.id] == build
      modifies build, build.answer
      ensures Wired()
      ensures var q := old(View());
              View() == q.(builds := q.builds[build.id := Cancelled(q.builds[build.id], response)])
    {
      ghost var before := BuildsOf(byId);
      build.Cancel(response);
      OneBuildChanged(byId, before, build.id);
    }

    /** Records each holder that this failure ends. */
    method NoteGivingUp(build: QueuedBuild, response: Response)
      requires Wired()
      modifies this`givenUp
      ensures Wired()
      ensures var q := old(View()); View() == q.(givenUp := q.givenUp + GivingUp(q, build.View(), response))
    {
      if response.success { return; }
      givenUp := givenUp + set h | h in build.holders && h in keepsGoing && !keepsGoing[h];
    }

    /** The walk along the list for a build of an id. */
    method Find(id: BuildId) returns (r: Option<QueuedBuild>)
      requires Wired()
      ensures r.Some? ==> r.value.id == id && id in byId && byId[id] == r.value
      ensures r.None? ==> id !in IdsOf(queue)
    {
      var i := 0;
      while i < |queue|
        invariant 0 <= i <= |queue|
        invariant forall j | 0 <= j < i :: queue[j].id != id
      {
        if queue[i].id == id {
          return Some(queue[i]);
        }
        i := i + 1;
      }
      r := None;
    }

    method CompleteLocked(id: BuildId, response: Response) returns (found: bool)
      requires Wired() && (forall i :: i in IdsOf(queue) <==> i in byId)
      modifies this`givenUp, Parts()
      ensures Wired() && byId == old(byId)
      ensures found <==> QueueModel.Complete(old(View()), id, response).Some?
      ensures View() == if found then QueueModel.Complete(old(View()), id, response).value else old(View())
      ensures found ==> id in byId
      ensures found ==> byId[id].answer.Reads() == if old(Answered(id)) then old(AnswerOf(id)) else Answers.Value(response)
    {
      var b := Find(id);
      if b.None? { return false; }
      if b.value.answer.Done() { return true; }
      AnswerLocked(b.value, response);
      NoteGivingUp(b.value, response);
      found := true;
    }

    /** `complete`, and `fail` with a failed response; false is the error of an unknown build. */
    method Complete(id: BuildId, response: Response) returns (found: bool)
      requires Valid()
      modifies this`givenUp, Parts()
      ensures Valid()
      ensures found <==> QueueModel.Complete(old(View()), id, response).Some?
      ensures View() == if found then QueueModel.Complete(old(View()), id, response).value else old(View())
      ensures byId == old(byId) && (found <==> id in byId)
      ensures found ==> byId[id].answer.Reads() == if old(Answered(id)) then old(AnswerOf(id)) else Answers.Value(response)
    {
      QueueRuns.CompleteKeeps(View(), id, response);
      assert forall i :: i in IdsOf(queue) <==> i in View().builds;
      found := CompleteLocked(id, response);
    }

    /** What those who wait for a build read. */
    ghost function AnswerOf(id: BuildId): (r: Answers.Reading<Response>)
      reads this`byId, Parts()
    {
      if id in byId then byId[id].answer.Reads() else Answers.NotSet
    }

    ghost predicate Answered(id: BuildId)
      reads this`byId, Parts()
    {
      AnswerOf(id) != Answers.NotSet
    }

    /** Whether every request that holds the build gave up, and nobody else wants it. */
    method NobodyWants(build: QueuedBuild) returns (r: bool)
      requires Wired() && build.id in byId && byId[build.id] == build
      ensures r == QueueModel.NobodyWants(View(), build.id)
    {
      r := build.holders != {} && build.holders <= givenUp && build.standalone == 0;
    }

    method CancelUnwantedLocked(id: BuildId)
      requires Wired()
      modifies Parts()
      ensures Wired() && View() == QueueModel.CancelUnwanted(old(View()), id)
    {
      if id in byId && !byId[id].answer.Done() {
        CancelLocked(byId[id], UNWANTED);
      }
    }

    /** Ends a build by its id, unless it is done or gone. */
    method CancelUnwanted(id: BuildId)
      requires Valid()
      modifies Parts()
      ensures Valid() && View() == QueueModel.CancelUnwanted(old(View()), id)
    {
      QueueRuns.CancelUnwantedKeeps(View(), id);
      CancelUnwantedLocked(id);
    }

    method TouchLocked(id: BuildId, t: Touch)
      requires Wired()
      modifies Parts()
      ensures Wired() && View() == QueueModel.Apply(old(View()), DoTouch(id, t))
    {
      if id in byId {
        ghost var before := BuildsOf(byId);
        byId[id].TouchWith(t);
        OneBuildChanged(byId, before, id);
      }
    }

    /** A worker starts or ends, a client subscribes or leaves. */
    method TouchBuild(id: BuildId, t: Touch)
      requires Valid()
      modifies Parts()
      ensures Valid() && View() == QueueModel.Apply(old(View()), DoTouch(id, t))
    {
      QueueRuns.StepKeeps(View(), DoTouch(id, t));
      TouchLocked(id, t);
    }

    // --------------------------------------------------------- release and prune

    method LetGoLocked(build: QueuedBuild, r: RequestId)
      requires Wired() && build.id in byId && byId[build.id] == build
      modifies build, build.answer
      ensures Wired()
      ensures var q := old(View()); View() == q.(builds := q.builds[build.id := LetGo(q.builds[build.id], r)])
    {
      ghost var before := BuildsOf(byId);
      build.LetGoOf(r);
      OneBuildChanged(byId, before, build.id);
    }

    /** Lets go of the builds one by one. */
    method LetGoOfAll(ids: set<BuildId>, r: RequestId)
      requires Wired()
      modifies Parts()
      ensures Wired()
      ensures var q := old(View()); View() == q.(builds := LetGoAmong(q.builds, ids, r))
    {
      ghost var q := View();
      ghost var gone: set<BuildId> := {};
      var left := ids;
      LetGoOfNone(q.builds, r);
      while left != {}
        invariant left <= ids && gone == ids - left && Wired()
        invariant View() == q.(builds := LetGoAmong(q.builds, gone, r))
        decreases left
      {
        var id :| id in left;
        LetGoOfOneMore(q.builds, gone, id, r);
        if id in byId {
          assert id in View().builds;
          LetGoLocked(byId[id], r);
        } else {
          assert id !in View().builds;
        }
        left := left - {id};
        gone := gone + {id};
      }
    }

    method ReleaseLocked(r: RequestId)
      requires Wired()
      modifies this`held, this`givenUp, this`maxJobs, this`keepsGoing, Parts()
      ensures Wired() && View() == Release(old(View()), r)
    {
      var ids := HeldBy(held, r);
      LetGoOfAll(ids, r);
      ForgetLocked(r);
    }

    /** No table names the request any more. */
    method ForgetLocked(r: RequestId)
      requires Wired()
      modifies this`held, this`givenUp, this`maxJobs, this`keepsGoing
      ensures Wired()
      ensures var q := old(View());
              View() == q.(held := q.held - {r}, givenUp := q.givenUp - {r},
                           maxJobs := q.maxJobs - {r}, keepsGoing := q.keepsGoing - {r})
    {
      ForgetHolds(r);
      ForgetOptions(r);
    }

    method ForgetHolds(r: RequestId)
      requires Wired()
      modifies this`held, this`givenUp
      ensures Wired()
      ensures View() == old(View()).(held := old(View()).held - {r}, givenUp := old(View()).givenUp - {r})
    {
      held, givenUp := held - {r}, givenUp - {r};
    }

    method ForgetOptions(r: RequestId)
      requires Wired()
      modifies this`maxJobs, this`keepsGoing
      ensures Wired()
      ensures View() == old(View()).(maxJobs := old(View()).maxJobs - {r}, keepsGoing := old(View()).keepsGoing - {r})
    {
      maxJobs, keepsGoing := maxJobs - {r}, keepsGoing - {r};
    }

    /** What `release_request` does under its first lock; the sweep that follows is `Prune`. */
    method ReleaseRequest(r: RequestId)
      requires Valid()
      modifies this`held, this`givenUp, this`maxJobs, this`keepsGoing, Parts()
      ensures Valid() && View() == Release(old(View()), r)
    {
      QueueRuns.ReleaseKeeps(View(), r);
      ReleaseLocked(r);
    }

    /** The finished builds nobody waits for and nobody streams. */
    method Sweep() returns (gone: set<BuildId>)
      requires Wired() && (forall i :: i in IdsOf(queue) <==> i in byId)
      ensures Wired() && View() == old(View()) && gone == DoomedIds(View())
    {
      gone := {};
      for i := 0 to |queue|
        invariant forall id :: id in gone <==> exists j | 0 <= j < i :: queue[j].id == id && Doomed(queue[j].View())
      {
        var b := queue[i];
        if b.answer.Done() && b.requests == {} && b.holders == {} && b.subscribers == {} {
          gone := gone + {b.id};
        }
      }
      SweepIsDoomed(gone);
    }

    lemma SweepIsDoomed(gone: set<BuildId>)
      requires Wired() && (forall i :: i in IdsOf(queue) <==> i in byId)
      requires forall id :: id in gone <==> exists j | 0 <= j < |queue| :: queue[j].id == id && Doomed(queue[j].View())
      ensures gone == DoomedIds(View())
    {
      forall id
        ensures id in gone <==> id in DoomedIds(View())
      {
        if id in byId {
          assert id in IdsOf(queue);
          var j :| 0 <= j < |queue| && IdsOf(queue)[j] == id;
          assert queue[j] == byId[id];
        }
      }
    }

    method DropFromList(gone: set<BuildId>)
      requires Wired()
      modifies this`queue
      ensures Wired() && View() == old(View()).(order := Without(old(View()).order, gone))
      ensures forall b | b in queue :: b.id !in gone
    {
      RemainingIds(queue, gone);
      DropWiring(queue, byPath, byId, gone);
      queue := Remaining(queue, gone);
    }

    method DropFromPaths(gone: set<BuildId>)
      requires Wired()
      modifies this`byPath
      ensures Wired() && View() == old(View()).(byKey := KeysWithout(old(View()).byKey, gone))
      ensures forall k | k in byPath :: byPath[k].id !in gone
    {
      DropNames(byPath, gone);
      byPath := PathsWithout(byPath, gone);
    }

    method DropFromIds(gone: set<BuildId>)
      requires Wired()
      requires (forall b | b in queue :: b.id !in gone) && (forall k | k in byPath :: byPath[k].id !in gone)
      modifies this`byId
      ensures Wired() && Parts() <= old(Parts())
      ensures View() == old(View()).(builds := old(View()).builds - gone)
    {
      ghost var before, index := BuildsOf(byId), byId;
      byId := byId - gone;
      DropBuilds(index, before, gone);
    }

    /** Drops the builds of the ids from the list and from both indices. */
    method DropLocked(gone: set<BuildId>)
      requires Wired()
      modifies this`queue, this`byPath, this`byId
      ensures Wired() && Parts() <= old(Parts()) && View() == Drop(old(View()), gone)
    {
      DropFromList(gone);
      DropFromPaths(gone);
      DropFromIds(gone);
    }

    method PruneLocked()
      requires Wired() && (forall i :: i in IdsOf(queue) <==> i in byId)
      modifies this`queue, this`byPath, this`byId
      ensures Wired() && Parts() <= old(Parts()) && View() == QueueModel.Prune(old(View()))
    {
      ghost var q := View();
      var gone := Sweep();
      assert gone == DoomedIds(q);
      DropLocked(gone);
    }

    /** Drops the finished builds nobody waits for and nobody streams. */
    method Prune()
      requires Valid()
      modifies this`queue, this`byPath, this`byId
      ensures Valid() && Parts() <= old(Parts()) && View() == QueueModel.Prune(old(View()))
    {
      QueueRuns.PruneKeeps(View());
      assert forall i :: i in IdsOf(queue) <==> i in View().builds;
      PruneLocked();
    }
  }

  function PathsWithout(byPath: map<Key, QueuedBuild>, gone: set<BuildId>): (r: map<Key, QueuedBuild>) {
    map k | k in byPath && byPath[k].id !in gone :: byPath[k]
  }

  lemma DropWiring(queue: seq<QueuedBuild>, byPath: map<Key, QueuedBuild>, byId: Index, gone: set<BuildId>)
    requires Wiring(queue, byPath, byId)
    ensures Wiring(Remaining(queue, gone), byPath, byId)
  {
    RemainingIds(queue, gone);
    var kept := Remaining(queue, gone);
    forall i | 0 <= i < |kept|
      ensures kept[i].id in byId && byId[kept[i].id] == kept[i]
    {
      assert kept[i] in queue;
    }
  }

  lemma DropNames(byPath: map<Key, QueuedBuild>, gone: set<BuildId>)
    ensures KeysOf(PathsWithout(byPath, gone)) == KeysWithout(KeysOf(byPath), gone)
  {
  }

  lemma DropBuilds(byId: Index, before: map<BuildId, Build>, gone: set<BuildId>)
    requires before.Keys == byId.Keys && forall id | id in byId :: byId[id].View() == before[id]
    ensures BuildsOf(byId - gone) == before - gone
    ensures Objects(byId - gone) <= Objects(byId)
  {
  }

  /** A list without the builds of some ids. */
  function Remaining(queue: seq<QueuedBuild>, gone: set<BuildId>): (r: seq<QueuedBuild>) {
    if queue == [] then []
    else Remaining(queue[..|queue| - 1], gone)
         + (if queue[|queue| - 1].id in gone then [] else [queue[|queue| - 1]])
  }

  lemma {:induction false} RemainingIds(queue: seq<QueuedBuild>, gone: set<BuildId>)
    ensures IdsOf(Remaining(queue, gone)) == Without(IdsOf(queue), gone)
    ensures forall b | b in Remaining(queue, gone) :: b in queue && b.id !in gone
    decreases |queue|
  {
    if queue != [] {
      var n := |queue| - 1;
      RemainingIds(queue[..n], gone);
      assert IdsOf(queue)[..n] == IdsOf(queue[..n]);
    }
  }

  lemma LetGoOfNone(builds: map<BuildId, Build>, r: RequestId)
    ensures LetGoAmong(builds, {}, r) == builds
  {
  }

  lemma LetGoOfOneMore(builds: map<BuildId, Build>, gone: set<BuildId>, id: BuildId, r: RequestId)
    requires id !in gone
    ensures var m := LetGoAmong(builds, gone, r);
            LetGoAmong(builds, gone + {id}, r) == if id in builds then m[id := LetGo(m[id], r)] else m
  {
  }

  method Fresh(id: BuildId, a: Asked) returns (build: QueuedBuild)
    ensures fresh(build) && fresh(build.answer) && build.Settled()
    ensures build.id == id && build.key == a.key && build.View() == Join(NewBuild(a.key), a)
  {
    build := new QueuedBuild(id, a.key);
    build.AddAsker(a);
  }

  lemma EnqueueJoins(q: Queue, a: Asked, id: BuildId)
    requires (a.fromGoal ==> a.goal.Some?) && Existing(q, a.key) == Some(id) && !q.builds[id].Done()
    requires !(a.delegated && q.builds[id].RunsRemotely())
    ensures var n := NoteHoldOf(NoteOptionsOf(q, a), a, id);
            Enqueue(q, a) == Joined(n.(builds := n.builds[id := Join(n.builds[id], a)]), id)
  {
  }

  lemma EnqueueCreates(q: Queue, a: Asked)
    requires (a.fromGoal ==> a.goal.Some?)
    requires Existing(q, a.key).Some? ==> q.builds[Existing(q, a.key).value].Done()
    requires !(a.delegated && Existing(q, a.key).Some? && q.builds[Existing(q, a.key).value].RunsRemotely())
    ensures var n := NoteHoldOf(NoteOptionsOf(q, a), a, q.nextId);
            Enqueue(q, a) == Joined(n.(order := n.order + [n.nextId],
                                       builds := n.builds[n.nextId := Join(NewBuild(a.key), a)],
                                       byKey := n.byKey[a.key := n.nextId],
                                       nextId := n.nextId + 1), n.nextId)
  {
  }
}
