/**
  The shared build queue as a value: what each locked method of `BuildQueue` does to it, the invariant all
  of them keep, and what that means over every run.
 */
module QueueModel {
  import opened Optional

  type BuildId = nat
  type RequestId = nat
  type ClientId = nat
  type Key = (string, int)               // derivation and build mode

  datatype Response = Response(success: bool, message: string)

  datatype Target = Local | Remote(store: string)

  datatype Worker = Idle | Working(cancelled: bool)

  datatype Build = Build(
    key: Key,
    answer: Option<Response>,
    worker: Worker,
    placed: Option<Target>,
    fromGoal: bool,
    holders: set<RequestId>,
    standalone: nat,
    requests: set<RequestId>,
    subscribers: set<ClientId>)
  {
    predicate Done() { answer.Some? }

    predicate RunsRemotely() {
      worker.Working? && placed.Some? && placed.value.Remote?
    }
  }

  datatype Options = Options(maxJobs: int, keepGoing: bool)

  datatype Asked = Asked(
    key: Key, fromGoal: bool, goal: Option<RequestId>, request: Option<RequestId>,
    options: Option<Options>, delegated: bool)

  datatype Queue = Queue(
    order: seq<BuildId>,
    builds: map<BuildId, Build>,
    byKey: map<Key, BuildId>,
    held: Holds,
    givenUp: set<RequestId>,
    maxJobs: map<RequestId, Option<int>>,
    keepsGoing: map<RequestId, bool>,
    nextId: BuildId)

  const EMPTY := Queue([], map[], map[], map[], {}, map[], map[], 1)

  datatype Enqueued =
    | Joined(queue: Queue, id: BuildId)
    | GoalWithoutRequest
    | DelegationLoop

  // ----------------------------------------------------------------- enqueue

  type Holds = map<RequestId, set<BuildId>>

  function HeldBy(held: Holds, r: RequestId): (s: set<BuildId>) {
    if r in held then held[r] else {}
  }

  /** The build the index names for a key. */
  function Existing(q: Queue, key: Key): (r: Option<BuildId>) {
    if key in q.byKey && q.byKey[key] in q.builds then Some(q.byKey[key]) else None
  }

  /** The asker joins the build: as a holder, or as a standalone want. */
  function Join(b: Build, a: Asked): (r: Build) {
    b.(fromGoal := b.fromGoal || a.fromGoal,
       holders := if a.fromGoal && a.goal.Some? then b.holders + {a.goal.value} else b.holders,
       standalone := if a.goal.None? then b.standalone + 1 else b.standalone,
       requests := if a.request.Some? then b.requests + {a.request.value} else b.requests)
  }

  /** The options of a goal request are noted, and its hold. */
  function NoteAsker(q: Queue, a: Asked, id: BuildId): (r: Queue) {
    if a.goal.None? then q
    else
      q.(maxJobs := q.maxJobs[a.goal.value := if a.options.None? then None else Some(a.options.value.maxJobs)],
         keepsGoing := q.keepsGoing[a.goal.value := a.options.None? || a.options.value.keepGoing],
         held := if a.fromGoal then q.held[a.goal.value := HeldBy(q.held, a.goal.value) + {id}] else q.held)
  }

  function NewBuild(key: Key): (b: Build) {
    Build(key, None, Idle, None, false, {}, 0, {}, {})
  }

  function Enqueue(q: Queue, a: Asked): (r: Enqueued) {
    var e := Existing(q, a.key);
    if a.fromGoal && a.goal.None? then GoalWithoutRequest
    else if a.delegated && e.Some? && q.builds[e.value].RunsRemotely() then DelegationLoop
    else if e.Some? && !q.builds[e.value].Done() then
      var id := e.value;
      var t := NoteAsker(q, a, id);
      Joined(t.(builds := q.builds[id := Join(q.builds[id], a)]), id)
    else
      var id := q.nextId;
      var t := NoteAsker(q, a, id);
      Joined(t.(order := q.order + [id],
                builds := q.builds[id := Join(NewBuild(a.key), a)],
                byKey := q.byKey[a.key := id],
                nextId := id + 1), id)
  }

  // ------------------------------------------------------- completing, cancelling

  /** A failed build ends each of its holders that does not keep going. */
  function GivingUp(q: Queue, b: Build, response: Response): (r: set<RequestId>) {
    if response.success then {}
    else set h | h in b.holders && h in q.keepsGoing && !q.keepsGoing[h]
  }

  /** `complete` and `fail`; a build whose answer is set keeps it. */
  function Complete(q: Queue, id: BuildId, response: Response): (r: Option<Queue>) {
    if id !in q.builds then None
    else if q.builds[id].Done() then Some(q)
    else
      var b := q.builds[id];
      Some(q.(builds := q.builds[id := b.(answer := Some(response))],
              givenUp := q.givenUp + GivingUp(q, b, response)))
  }

  const CANCELLED := Response(false, "pynixd: build cancelled because no goal waits for it")
  const UNWANTED := Response(false, "")

  /** `_cancel_locked`. */
  function Cancelled(b: Build, response: Response): (r: Build) {
    b.(worker := if b.worker.Working? then Working(true) else Idle,
       answer := if b.Done() then b.answer else Some(response))
  }

  predicate NobodyWants(q: Queue, id: BuildId)
    requires id in q.builds
  {
    var b := q.builds[id];
    b.holders != {} && b.holders <= q.givenUp && b.standalone == 0
  }

  function CancelUnwanted(q: Queue, id: BuildId): (r: Queue) {
    if id !in q.builds || q.builds[id].Done() then q
    else q.(builds := q.builds[id := Cancelled(q.builds[id], UNWANTED)])
  }

  // ----------------------------------------------------------- release and prune

  /** One build a request lets go of: it ends when nobody is left. */
  function LetGo(b: Build, r: RequestId): (b': Build) {
    var c := b.(holders := b.holders - {r}, requests := b.requests - {r});
    if c.holders == {} && c.standalone == 0 && !c.Done() then Cancelled(c, CANCELLED) else c
  }

  function LetGoAmong(builds: map<BuildId, Build>, ids: set<BuildId>, r: RequestId): (m: map<BuildId, Build>) {
    map id | id in builds :: if id in ids then LetGo(builds[id], r) else builds[id]
  }

  function Release(q: Queue, r: RequestId): (q': Queue) {
    q.(builds := LetGoAmong(q.builds, HeldBy(q.held, r), r),
       held := q.held - {r},
       givenUp := q.givenUp - {r},
       maxJobs := q.maxJobs - {r},
       keepsGoing := q.keepsGoing - {r})
  }

  /** A finished build nobody waits for and nobody streams. */
  predicate Doomed(b: Build) {
    b.Done() && b.requests == {} && b.holders == {} && b.subscribers == {}
  }

  function DoomedIds(q: Queue): (r: set<BuildId>) {
    set id | id in q.builds && Doomed(q.builds[id])
  }

  function Without(s: seq<BuildId>, gone: set<BuildId>): (r: seq<BuildId>) {
    if s == [] then [] else Without(s[..|s| - 1], gone) + (if s[|s| - 1] in gone then [] else [s[|s| - 1]])
  }

  function KeysWithout(byKey: map<Key, BuildId>, gone: set<BuildId>): (r: map<Key, BuildId>) {
    map k | k in byKey && byKey[k] !in gone :: byKey[k]
  }

  /** The builds of the ids leave the list and both indices. */
  function Drop(q: Queue, gone: set<BuildId>): (q': Queue) {
    q.(order := Without(q.order, gone),
       builds := q.builds - gone,
       byKey := KeysWithout(q.byKey, gone))
  }

  function Prune(q: Queue): (q': Queue) {
    Drop(q, DoomedIds(q))
  }

  // ------------------------------------------------------------------- workers

  /** What the scheduler and the log stream do to one build; no answer changes. */
  datatype Touch =
    | Start(target: Target)
    | End
    | Subscribe(client: ClientId)
    | Unsubscribe(client: ClientId)

  function Touched(b: Build, t: Touch): (r: Build) {
    match t
    case Start(target) => b.(worker := Working(false), placed := Some(target))
    case End => b.(worker := Idle)
    case Subscribe(client) => b.(subscribers := b.subscribers + {client})
    case Unsubscribe(client) => b.(subscribers := b.subscribers - {client})
  }

  // ---------------------------------------------------------------------- runs

  datatype Action =
    | DoEnqueue(asked: Asked)
    | DoComplete(id: BuildId, response: Response)
    | DoCancelUnwanted(id: BuildId)
    | DoRelease(request: RequestId)
    | DoPrune
    | DoTouch(id: BuildId, touch: Touch)

  function Apply(q: Queue, a: Action): (r: Queue) {
    match a
    case DoEnqueue(asked) => (match Enqueue(q, asked) case Joined(t, _) => t case _ => q)
    case DoComplete(id, response) => (match Complete(q, id, response) case Some(t) => t case None => q)
    case DoCancelUnwanted(id) => CancelUnwanted(q, id)
    case DoRelease(r) => Release(q, r)
    case DoPrune => Prune(q)
    case DoTouch(id, touch) => if id in q.builds then q.(builds := q.builds[id := Touched(q.builds[id], touch)]) else q
  }

  function Run(q: Queue, actions: seq<Action>): (r: Queue)
    decreases |actions|
  {
    if actions == [] then q else Apply(Run(q, actions[..|actions| - 1]), actions[|actions| - 1])
  }

  // ----------------------------------------------------------------- invariant

  /** The list and the id index hold the same builds, each once. */
  ghost predicate Listed(order: seq<BuildId>, ids: set<BuildId>, nextId: BuildId) {
    && (forall id :: id in order <==> id in ids)
    && (forall i, j | 0 <= i < j < |order| :: order[i] != order[j])
    && (forall id | id in ids :: id < nextId)
  }

  /** Each dedup entry names a queued build of its key, and each unfinished build is the one its key names. */
  ghost predicate Deduplicated(builds: map<BuildId, Build>, byKey: map<Key, BuildId>) {
    && (forall k | k in byKey :: byKey[k] in builds && builds[byKey[k]].key == k)
    && (forall id | id in builds && !builds[id].Done() :: builds[id].key in byKey && byKey[builds[id].key] == id)
  }

  /** The two sides of the holder relation agree. */
  ghost predicate HoldersAgree(builds: map<BuildId, Build>, held: Holds) {
    && (forall id, r | id in builds :: r in builds[id].holders <==> id in HeldBy(held, r))
    && (forall r, id | r in held && id in held[r] :: id in builds)
  }

  ghost predicate Inv(q: Queue) {
    && Listed(q.order, q.builds.Keys, q.nextId)
    && Deduplicated(q.builds, q.byKey)
    && HoldersAgree(q.builds, q.held)
    && q.givenUp <= q.held.Keys            // only requests that hold something are marked as given up
  }

  /** At most one unfinished build of a derivation and mode. */
  lemma OneUnfinishedPerKey(q: Queue, a: BuildId, b: BuildId)
    requires Inv(q) && a in q.builds && b in q.builds
    requires q.builds[a].key == q.builds[b].key && !q.builds[a].Done() && !q.builds[b].Done()
    ensures a == b
  {
  }
}
