/**
  Delegation between instances. A build that runs on a remote store waits for the build that store's own
  queue joined it to, and that one may be delegated on. Each instance applies the guard of `enqueue`: it
  refuses a delegated request for a build it runs on a remote store itself. The lemmas show that no run
  of any number of instances ever reaches a circle of waits.
 */
module Delegation {
  import opened Optional

  type Instance = nat
  type BuildId = nat
  type Key = (string, int)               // derivation and build mode

  datatype Target = Local | Remote(store: Instance)

  /** A queued build; `attempt` counts its workers, and `asked` says whether the current one sent its request. */
  datatype Build = Build(key: Key, building: bool, placed: Option<Target>, done: bool, attempt: nat, asked: bool) {
    predicate RunsRemotely() {
      building && placed.Some? && placed.value.Remote?
    }
  }

  datatype Ref = Ref(at: Instance, id: BuildId)

  datatype Request = Request(from: Ref, attempt: nat, to: Instance, key: Key)

  /** All instances at once: builds, dedup indices, the requests in flight, and the join accepted for each attempt. */
  datatype System = System(
    builds: map<Ref, Build>,
    index: map<(Instance, Key), BuildId>,
    nextId: map<Instance, BuildId>,
    flying: set<Request>,
    joined: map<(Ref, nat), Ref>)

  const EMPTY := System(map[], map[], map[], {}, map[])

  datatype Action =
    | Enqueue(at: Instance, key: Key)             // a client of the instance asks for the build
    | Assign(build: Ref, target: Target)          // the scheduler starts a worker
    | Send(build: Ref)                            // the worker asks the remote store
    | Deliver(request: Request)                   // the remote store's `enqueue` runs
    | Lose(request: Request)                      // the connection breaks first
    | Retry(build: Ref)                           // `reset_for_retry`
    | Finish(build: Ref)                          // the answer is set: done, failed or cancelled
    | WorkerEnds(build: Ref)
    | Forget(at: Instance, key: Key)              // `prune` drops a finished build from the index

  // ---------------------------------------------------------------- the steps

  function NextId(s: System, at: Instance): (id: BuildId) {
    if at in s.nextId then s.nextId[at] else 1
  }

  /** The build the index names, when it names one. */
  function Existing(s: System, at: Instance, key: Key): (r: Option<Ref>) {
    if (at, key) in s.index && Ref(at, s.index[(at, key)]) in s.builds
    then Some(Ref(at, s.index[(at, key)]))
    else None
  }

  /** A new pending build, indexed under its key. */
  function Create(s: System, at: Instance, key: Key): (r: System) {
    var id := NextId(s, at);
    s.(builds := s.builds[Ref(at, id) := Build(key, false, None, false, 0, false)],
       index := s.index[(at, key) := id],
       nextId := s.nextId[at := id + 1])
  }

  /** The guard of a delegated `enqueue`. */
  predicate Refuses(s: System, at: Instance, key: Key) {
    var e := Existing(s, at, key);
    e.Some? && s.builds[e.value].RunsRemotely()
  }

  function Accept(s: System, r: Request): (r': System) {
    var e := Existing(s, r.to, r.key);
    if e.Some? && !s.builds[e.value].done then s.(joined := s.joined[(r.from, r.attempt) := e.value])
    else
      var t := Create(s, r.to, r.key);
      t.(joined := t.joined[(r.from, r.attempt) := Ref(r.to, NextId(s, r.to))])
  }

  predicate Enabled(s: System, a: Action) {
    match a
    case Enqueue(_, _) => true
    case Assign(b, _) => b in s.builds && !s.builds[b].building
    case Send(b) => b in s.builds && s.builds[b].RunsRemotely() && !s.builds[b].asked
    case Deliver(r) => r in s.flying
    case Lose(r) => r in s.flying
    case Retry(b) => b in s.builds && s.builds[b].building
    case Finish(b) => b in s.builds
    case WorkerEnds(b) => b in s.builds && s.builds[b].building
    case Forget(at, key) => Existing(s, at, key).Some? && s.builds[Existing(s, at, key).value].done
  }

  /** A new worker, which has asked for nothing yet. */
  function Started(x: Build, target: Target): (r: Build) {
    x.(building := true, placed := Some(target), attempt := x.attempt + 1, asked := false)
  }

  /** One step. `guarded` is the code; without the guard every delegated request is accepted. */
  function Apply(s: System, a: Action, guarded: bool): (r: System)
    requires Enabled(s, a)
  {
    match a
    case Enqueue(at, key) =>
      var e := Existing(s, at, key);
      if e.Some? && !s.builds[e.value].done then s else Create(s, at, key)
    case Assign(b, target) =>
      var x := s.builds[b];
      s.(builds := s.builds[b := Started(x, target)])
    case Send(b) =>
      var x := s.builds[b];
      s.(builds := s.builds[b := x.(asked := true)],
         flying := s.flying + {Request(b, x.attempt, x.placed.value.store, x.key)})
    case Deliver(r) =>
      var t := s.(flying := s.flying - {r});
      if guarded && Refuses(s, r.to, r.key) then t else Accept(t, r)
    case Lose(r) => s.(flying := s.flying - {r})
    case Retry(b) => s.(builds := s.builds[b := s.builds[b].(building := false)])
    case Finish(b) => s.(builds := s.builds[b := s.builds[b].(done := true)])
    case WorkerEnds(b) => s.(builds := s.builds[b := s.builds[b].(building := false)])
    case Forget(at, key) => s.(index := s.index - {(at, key)})
  }

  /** The state after a run; a step that is not enabled does not happen. */
  function Run(actions: seq<Action>, guarded: bool): (s: System)
    decreases |actions|
  {
    if actions == [] then EMPTY
    else
      var n := |actions| - 1;
      var s := Run(actions[..n], guarded);
      if Enabled(s, actions[n]) then Apply(s, actions[n], guarded) else s
  }

  // ---------------------------------------------------------------- who waits

  /** The build this one waits for: its running worker's request was joined to it. */
  function Awaits(s: System, b: Ref): (r: Option<Ref>) {
    if b in s.builds && s.builds[b].RunsRemotely() && (b, s.builds[b].attempt) in s.joined
    then Some(s.joined[(b, s.builds[b].attempt)])
    else None
  }

  /** The build `n` waits away. */
  function Chain(s: System, b: Ref, n: nat): (r: Option<Ref>)
    decreases n
  {
    if n == 0 then Some(b)
    else match Awaits(s, b)
         case None => None
         case Some(c) => Chain(s, c, n - 1)
  }

  /** The chain of waits from the build comes to an end. */
  ghost predicate Ends(s: System, b: Ref) {
    exists n: nat :: Chain(s, b, n).None?
  }

  ghost predicate NoCircle(s: System) {
    forall b: Ref :: Ends(s, b)
  }

  /** Every wait of `t` is a wait of `s`. */
  ghost predicate FewerWaits(s: System, t: System) {
    forall b: Ref :: Awaits(t, b).Some? ==> Awaits(t, b) == Awaits(s, b)
  }

  lemma {:induction false} ChainShrinks(s: System, t: System, b: Ref, n: nat)
    requires FewerWaits(s, t) && Chain(s, b, n).None?
    ensures Chain(t, b, n).None?
    decreases n
  {
    if n > 0 && Awaits(t, b).Some? {
      ChainShrinks(s, t, Awaits(t, b).value, n - 1);
    }
  }

  lemma FewerWaitsKeep(s: System, t: System)
    requires NoCircle(s) && FewerWaits(s, t)
    ensures NoCircle(t)
  {
    forall b: Ref
      ensures Ends(t, b)
    {
      assert Ends(s, b);
      var n: nat :| Chain(s, b, n).None?;
      ChainShrinks(s, t, b, n);
    }
  }

  /** With one new wait, from `u` to a build that waits for nothing, chains end two steps later at most. */
  lemma {:induction false} ChainGrows(s: System, t: System, u: Ref, v: Ref, b: Ref, n: nat) returns (m: nat)
    requires forall x: Ref | x != u :: Awaits(t, x).Some? ==> Awaits(t, x) == Awaits(s, x)
    requires Awaits(t, v) == None
    requires Awaits(t, u).Some? ==> Awaits(t, u) == Some(v) || Awaits(t, u) == Awaits(s, u)
    requires Chain(s, b, n).None?
    ensures Chain(t, b, m).None?
    decreases n
  {
    if Awaits(t, b).None? {
      m := 1;
    } else if Awaits(t, b) == Some(v) {
      m := 2;
      assert Chain(t, v, 1).None?;
    } else {
      var k := ChainGrows(s, t, u, v, Awaits(t, b).value, n - 1);
      m := k + 1;
    }
  }

  // ------------------------------------------------------------ the invariant

  /** Ids of builds are below the counter of their instance. */
  ghost predicate Numbered(s: System) {
    forall b | b in s.builds :: b.id < NextId(s, b.at)
  }

  ghost predicate Indexed(s: System) {
    forall k | k in s.index :: Ref(k.0, s.index[k]) in s.builds && s.builds[Ref(k.0, s.index[k])].key == k.1
  }

  /** The index names each build that is not done. */
  ghost predicate UnfinishedIndexed(s: System) {
    forall b | b in s.builds && !s.builds[b].done ::
      (b.at, s.builds[b].key) in s.index && s.index[(b.at, s.builds[b].key)] == b.id
  }

  ghost predicate FlightsKnown(s: System) {
    forall r | r in s.flying ::
      r.from in s.builds && s.builds[r.from].key == r.key && r.attempt <= s.builds[r.from].attempt
  }

  ghost predicate JoinsKnown(s: System) {
    forall k | k in s.joined ::
      && k.0 in s.builds && k.1 <= s.builds[k.0].attempt
      && s.joined[k] in s.builds && s.builds[s.joined[k]].key == s.builds[k.0].key
  }

  /** A worker asks once: its request is in flight or joined, and a worker that has not asked has neither. */
  ghost predicate AskedOnce(s: System) {
    && (forall r | r in s.flying :: (r.from, r.attempt) !in s.joined)
    && (forall r, q | r in s.flying && q in s.flying && r.from == q.from && r.attempt == q.attempt :: r == q)
    && (forall r | r in s.flying && r.from in s.builds && r.attempt == s.builds[r.from].attempt ::
          s.builds[r.from].asked)
    && (forall k | k in s.joined && k.0 in s.builds && k.1 == s.builds[k.0].attempt :: s.builds[k.0].asked)
  }

  /** What every reachable system keeps beside the absence of circles. */
  ghost predicate Consistent(s: System) {
    Numbered(s) && Indexed(s) && UnfinishedIndexed(s) && FlightsKnown(s) && JoinsKnown(s) && AskedOnce(s)
  }

  /** A build that changes its worker, or ends, upsets nothing. */
  lemma UpdateConsistent(s: System, b: Ref, x: Build)
    requires Consistent(s) && b in s.builds
    requires x.key == s.builds[b].key && (s.builds[b].done ==> x.done)
    requires x.attempt > s.builds[b].attempt || (x.attempt == s.builds[b].attempt && x.asked == s.builds[b].asked)
    ensures Consistent(s.(builds := s.builds[b := x]))
  {
    UpdateIndex(s, b, x);
    UpdateWires(s, b, x);
  }

  lemma UpdateIndex(s: System, b: Ref, x: Build)
    requires Numbered(s) && Indexed(s) && UnfinishedIndexed(s)
    requires b in s.builds && x.key == s.builds[b].key && (s.builds[b].done ==> x.done)
    ensures var t := s.(builds := s.builds[b := x]); Numbered(t) && Indexed(t) && UnfinishedIndexed(t)
  {
  }

  lemma UpdateWires(s: System, b: Ref, x: Build)
    requires FlightsKnown(s) && JoinsKnown(s) && AskedOnce(s)
    requires b in s.builds && x.key == s.builds[b].key
    requires x.attempt > s.builds[b].attempt || (x.attempt == s.builds[b].attempt && x.asked == s.builds[b].asked)
    ensures var t := s.(builds := s.builds[b := x]); FlightsKnown(t) && JoinsKnown(t) && AskedOnce(t)
  {
  }

  lemma CreateConsistent(s: System, at: Instance, key: Key)
    requires Consistent(s)
    requires var e := Existing(s, at, key); e.Some? ==> s.builds[e.value].done
    ensures Consistent(Create(s, at, key)) && Ref(at, NextId(s, at)) !in s.builds
    ensures forall b: Ref :: Awaits(Create(s, at, key), b) == Awaits(s, b)
  {
    CreateIndexed(s, at, key);
    CreateUnfinished(s, at, key);
    CreateWires(s, at, key);
  }

  lemma CreateIndexed(s: System, at: Instance, key: Key)
    requires Numbered(s) && Indexed(s)
    ensures Numbered(Create(s, at, key)) && Indexed(Create(s, at, key))
  {
    var t := Create(s, at, key);
    forall k | k in t.index
      ensures Ref(k.0, t.index[k]) in t.builds && t.builds[Ref(k.0, t.index[k])].key == k.1
    {
      if k != (at, key) { assert k in s.index; }
    }
  }

  lemma CreateUnfinished(s: System, at: Instance, key: Key)
    requires UnfinishedIndexed(s)
    requires var e := Existing(s, at, key); e.Some? ==> s.builds[e.value].done
    ensures UnfinishedIndexed(Create(s, at, key))
  {
    var t := Create(s, at, key);
    forall b | b in t.builds && !t.builds[b].done
      ensures (b.at, t.builds[b].key) in t.index && t.index[(b.at, t.builds[b].key)] == b.id
    {
      if b != Ref(at, NextId(s, at)) {
        assert b in s.builds && (b.at, s.builds[b].key) in s.index;
      }
    }
  }

  lemma CreateWires(s: System, at: Instance, key: Key)
    requires Numbered(s) && FlightsKnown(s) && JoinsKnown(s) && AskedOnce(s)
    ensures var t := Create(s, at, key);
            && Ref(at, NextId(s, at)) !in s.builds
            && FlightsKnown(t) && JoinsKnown(t) && AskedOnce(t)
            && forall b: Ref :: Awaits(t, b) == Awaits(s, b)
  {
    assert forall n :: (Ref(at, NextId(s, at)), n) !in s.joined;
  }

  lemma JoinConsistent(s: System, u: Ref, attempt: nat, v: Ref)
    requires Consistent(s) && u in s.builds && attempt <= s.builds[u].attempt
    requires v in s.builds && s.builds[v].key == s.builds[u].key
    requires attempt == s.builds[u].attempt ==> s.builds[u].asked
    requires forall r | r in s.flying :: r.from != u || r.attempt != attempt
    ensures Consistent(s.(joined := s.joined[(u, attempt) := v]))
  {
  }

  /** One more join, to a build that does not run remotely, closes no circle. */
  lemma JoinKeeps(s: System, u: Ref, attempt: nat, v: Ref)
    requires NoCircle(s) && v in s.builds && !s.builds[v].RunsRemotely()
    ensures NoCircle(s.(joined := s.joined[(u, attempt) := v]))
  {
    var t := s.(joined := s.joined[(u, attempt) := v]);
    assert Awaits(t, v) == None;
    forall b: Ref
      ensures Ends(t, b)
    {
      assert Ends(s, b);
      var n: nat :| Chain(s, b, n).None?;
      var m := ChainGrows(s, t, u, v, b, n);
    }
  }

  /** A delegated request the guard lets through adds one wait, for a build that waits for nothing. */
  lemma AcceptKeeps(s: System, r: Request)
    requires Consistent(s) && NoCircle(s) && !Refuses(s, r.to, r.key)
    requires r.from in s.builds && s.builds[r.from].key == r.key && r.attempt <= s.builds[r.from].attempt
    requires r.attempt == s.builds[r.from].attempt ==> s.builds[r.from].asked
    requires forall q | q in s.flying :: q.from != r.from || q.attempt != r.attempt
    ensures Consistent(Accept(s, r)) && NoCircle(Accept(s, r))
  {
    var e := Existing(s, r.to, r.key);
    if e.Some? && !s.builds[e.value].done {
      assert s.builds[e.value].key == r.key;
      JoinConsistent(s, r.from, r.attempt, e.value);
      JoinKeeps(s, r.from, r.attempt, e.value);
    } else {
      CreateConsistent(s, r.to, r.key);
      var t, v := Create(s, r.to, r.key), Ref(r.to, NextId(s, r.to));
      FewerWaitsKeep(s, t);
      JoinConsistent(t, r.from, r.attempt, v);
      JoinKeeps(t, r.from, r.attempt, v);
    }
  }

  /** A request leaves the wire. */
  lemma LandConsistent(s: System, r: Request)
    requires Consistent(s) && NoCircle(s)
    ensures var t := s.(flying := s.flying - {r}); Consistent(t) && NoCircle(t)
  {
    FewerWaitsKeep(s, s.(flying := s.flying - {r}));
  }

  lemma SendConsistent(s: System, b: Ref)
    requires Consistent(s) && NoCircle(s) && Enabled(s, Send(b))
    ensures Consistent(Apply(s, Send(b), true)) && NoCircle(Apply(s, Send(b), true))
  {
    var x := s.builds[b].(asked := true);
    UpdateIndex(s, b, x);
    SendWires(s, b);
    FewerWaitsKeep(s, Apply(s, Send(b), true));
  }

  lemma SendWires(s: System, b: Ref)
    requires FlightsKnown(s) && JoinsKnown(s) && AskedOnce(s) && Enabled(s, Send(b))
    ensures var t := Apply(s, Send(b), true); FlightsKnown(t) && JoinsKnown(t) && AskedOnce(t)
  {
    var x := s.builds[b];
    var t := s.(builds := s.builds[b := x.(asked := true)]);
    AskWires(s, b);
    FlyWires(t, b, Request(b, x.attempt, x.placed.value.store, x.key));
  }

  lemma AskWires(s: System, b: Ref)
    requires FlightsKnown(s) && JoinsKnown(s) && AskedOnce(s) && b in s.builds && !s.builds[b].asked
    ensures var t := s.(builds := s.builds[b := s.builds[b].(asked := true)]);
            && FlightsKnown(t) && JoinsKnown(t) && AskedOnce(t)
            && (b, s.builds[b].attempt) !in s.joined
            && (forall r | r in s.flying :: r.from != b || r.attempt != s.builds[b].attempt)
  {
  }

  lemma FlyWires(s: System, b: Ref, q: Request)
    requires FlightsKnown(s) && JoinsKnown(s) && AskedOnce(s) && b in s.builds && s.builds[b].asked
    requires q.from == b && q.attempt == s.builds[b].attempt && q.key == s.builds[b].key
    requires (b, q.attempt) !in s.joined && forall r | r in s.flying :: r.from != b || r.attempt != q.attempt
    ensures var t := s.(flying := s.flying + {q}); FlightsKnown(t) && JoinsKnown(t) && AskedOnce(t)
  {
  }

  lemma ForgetConsistent(s: System, at: Instance, key: Key)
    requires Consistent(s) && NoCircle(s) && Enabled(s, Forget(at, key))
    ensures Consistent(Apply(s, Forget(at, key), true)) && NoCircle(Apply(s, Forget(at, key), true))
  {
    FewerWaitsKeep(s, Apply(s, Forget(at, key), true));
  }

  /** A build whose worker changes waits for no more than before: a new worker has asked for nothing yet. */
  lemma UpdateKeeps(s: System, b: Ref, x: Build)
    requires Consistent(s) && NoCircle(s) && b in s.builds
    requires x.key == s.builds[b].key && (s.builds[b].done ==> x.done)
    requires x.attempt > s.builds[b].attempt || (x.attempt == s.builds[b].attempt && x.placed == s.builds[b].placed
                                                 && x.asked == s.builds[b].asked
                                                 && (x.building ==> s.builds[b].building))
    ensures var t := s.(builds := s.builds[b := x]); Consistent(t) && NoCircle(t)
  {
    UpdateConsistent(s, b, x);
    FewerWaitsKeep(s, s.(builds := s.builds[b := x]));
  }

  lemma StepKeeps(s: System, a: Action)
    requires Consistent(s) && NoCircle(s) && Enabled(s, a)
    ensures Consistent(Apply(s, a, true)) && NoCircle(Apply(s, a, true))
  {
    match a
    case Enqueue(at, key) =>
      var e := Existing(s, at, key);
      if !(e.Some? && !s.builds[e.value].done) {
        CreateConsistent(s, at, key);
        FewerWaitsKeep(s, Create(s, at, key));
      }
    case Assign(b, target) =>
      var x := s.builds[b];
      UpdateKeeps(s, b, Started(x, target));
    case Send(b) => SendConsistent(s, b);
    case Deliver(r) =>
      LandConsistent(s, r);
      if !Refuses(s, r.to, r.key) {
        AcceptKeeps(s.(flying := s.flying - {r}), r);
      }
    case Lose(r) => LandConsistent(s, r);
    case Retry(b) => UpdateKeeps(s, b, s.builds[b].(building := false));
    case Finish(b) => UpdateKeeps(s, b, s.builds[b].(done := true));
    case WorkerEnds(b) => UpdateKeeps(s, b, s.builds[b].(building := false));
    case Forget(at, key) => ForgetConsistent(s, at, key);
  }

  // ------------------------------------------------------------- the theorems

  /** In every run of any number of instances, every chain of waits comes to an end. */
  lemma {:induction false} NoRunDeadlocks(actions: seq<Action>)
    ensures Consistent(Run(actions, true)) && NoCircle(Run(actions, true))
    decreases |actions|
  {
    if actions == [] {
      forall b: Ref
        ensures Ends(EMPTY, b)
      {
        assert Chain(EMPTY, b, 1).None?;
      }
    } else {
      var n := |actions| - 1;
      NoRunDeadlocks(actions[..n]);
      var s := Run(actions[..n], true);
      if Enabled(s, actions[n]) {
        StepKeeps(s, actions[n]);
      }
    }
  }

  /** One instance waits on another for a derivation and mode: both builds are unfinished. */
  ghost predicate WaitsFor(s: System, key: Key, x: Instance, y: Instance) {
    exists u: Ref, v: Ref ::
      && u.at == x && v.at == y && Awaits(s, u) == Some(v) && u in s.builds && v in s.builds
      && s.builds[u].key == key && !s.builds[u].done && !s.builds[v].done
  }

  /** The one unfinished build an instance has of a key. */
  function Current(s: System, x: Instance, key: Key): (r: Ref) {
    Ref(x, if (x, key) in s.index then s.index[(x, key)] else 0)
  }

  lemma WaitsAreCurrent(s: System, key: Key, x: Instance, y: Instance)
    requires Consistent(s) && WaitsFor(s, key, x, y)
    ensures Awaits(s, Current(s, x, key)) == Some(Current(s, y, key))
  {
    var u: Ref, v: Ref :|
      && u.at == x && v.at == y && Awaits(s, u) == Some(v) && u in s.builds && v in s.builds
      && s.builds[u].key == key && !s.builds[u].done && !s.builds[v].done;
    assert s.joined[(u, s.builds[u].attempt)] == v;
    assert s.builds[v].key == key;
  }

  ghost predicate IsWaitPath(s: System, key: Key, path: seq<Instance>) {
    |path| >= 2 && forall i | 0 <= i < |path| - 1 :: WaitsFor(s, key, path[i], path[i + 1])
  }

  lemma {:induction false} PathIsChain(s: System, key: Key, path: seq<Instance>)
    requires Consistent(s) && IsWaitPath(s, key, path)
    ensures Chain(s, Current(s, path[0], key), |path| - 1) == Some(Current(s, path[|path| - 1], key))
    decreases |path|
  {
    assert WaitsFor(s, key, path[0], path[0 + 1]);
    WaitsAreCurrent(s, key, path[0], path[1]);
    if |path| == 2 {
      assert Chain(s, Current(s, path[1], key), 0) == Some(Current(s, path[1], key));
    } else {
      var rest := path[1..];
      forall i | 0 <= i < |rest| - 1
        ensures WaitsFor(s, key, rest[i], rest[i + 1])
      {
        assert WaitsFor(s, key, path[i + 1], path[i + 1 + 1]);
      }
      PathIsChain(s, key, rest);
    }
  }

  lemma {:induction false} ChainAppend(s: System, b: Ref, m: nat, n: nat)
    requires Chain(s, b, m).Some?
    ensures Chain(s, b, m + n) == Chain(s, Chain(s, b, m).value, n)
    decreases m
  {
    if m > 0 {
      ChainAppend(s, Awaits(s, b).value, m - 1, n);
    }
  }

  lemma {:induction false} LoopNeverEnds(s: System, b: Ref, m: nat, n: nat)
    requires m > 0 && Chain(s, b, m) == Some(b)
    ensures Chain(s, b, n).Some?
    decreases n
  {
    if n >= m {
      ChainAppend(s, b, m, n - m);
      LoopNeverEnds(s, b, m, n - m);
    } else if Chain(s, b, n).None? {
      ChainStaysEnded(s, b, n, m - n);
    }
  }

  lemma {:induction false} ChainStaysEnded(s: System, b: Ref, n: nat, k: nat)
    requires Chain(s, b, n).None?
    ensures Chain(s, b, n + k).None?
    decreases n
  {
    if n > 0 && Awaits(s, b).Some? {
      ChainStaysEnded(s, Awaits(s, b).value, n - 1, k);
    }
  }

  /** In every run the relation "waits on, for this derivation and mode" between instances has no circle. */
  lemma InstancesNeverCircle(actions: seq<Action>, key: Key, path: seq<Instance>)
    requires IsWaitPath(Run(actions, true), key, path)
    ensures path[0] != path[|path| - 1]
  {
    var s := Run(actions, true);
    NoRunDeadlocks(actions);
    PathIsChain(s, key, path);
    var b := Current(s, path[0], key);
    assert Ends(s, b);
    var n: nat :| Chain(s, b, n).None?;
    if path[0] == path[|path| - 1] {
      LoopNeverEnds(s, b, |path| - 1, n);
    }
  }

  /** The waits of a running attempt are never lost: the join accepted for an attempt stays what it is. */
  lemma {:induction false} JoinsStay(before: seq<Action>, after: seq<Action>, b: Ref, attempt: nat)
    requires (b, attempt) in Run(before, true).joined
    ensures (b, attempt) in Run(before + after, true).joined
    ensures Run(before + after, true).joined[(b, attempt)] == Run(before, true).joined[(b, attempt)]
    decreases |after|
  {
    if after == [] {
      assert before + after == before;
    } else {
      var n := |after| - 1;
      JoinsStay(before, after[..n], b, attempt);
      assert before + after == before + after[..n] + [after[n]];
      Snoc(before + after[..n], after[n], true);
      NoRunDeadlocks(before + after[..n]);
      var s := Run(before + after[..n], true);
      if Enabled(s, after[n]) {
        JoinsStayStep(s, after[n], (b, attempt));
      }
    }
  }

  lemma JoinsStayStep(s: System, a: Action, k: (Ref, nat))
    requires AskedOnce(s) && Enabled(s, a) && k in s.joined
    ensures k in Apply(s, a, true).joined && Apply(s, a, true).joined[k] == s.joined[k]
  {
  }

  // Two instances, each with a client that asks for the same build, each handing it to the other.

  const KEY: Key := ("a.drv", 0)
  const A := Ref(0, 1)
  const B := Ref(1, 1)
  const OPENING := [Enqueue(0, KEY), Enqueue(1, KEY), Assign(A, Remote(1)), Assign(B, Remote(0))]
  const CROSSING := [Send(A), Send(B), Deliver(Request(A, 1, 1, KEY)), Deliver(Request(B, 1, 0, KEY))]

  /** Both builds run, each on the other instance. */
  function Crossed(a: bool, b: bool, flying: set<Request>, joined: map<(Ref, nat), Ref>): (s: System) {
    System(map[A := Build(KEY, true, Some(Remote(1)), false, 1, a), B := Build(KEY, true, Some(Remote(0)), false, 1, b)],
           map[(0, KEY) := 1, (1, KEY) := 1], map[0 := 2, 1 := 2], flying, joined)
  }

  lemma Snoc(before: seq<Action>, x: Action, guarded: bool)
    ensures var s := Run(before, guarded);
            Run(before + [x], guarded) == if Enabled(s, x) then Apply(s, x, guarded) else s
  {
    assert (before + [x])[..|before|] == before;
  }

  lemma OpeningRun(guarded: bool)
    ensures Run(OPENING, guarded) == Crossed(false, false, {}, map[])
  {
    var e1 := [Enqueue(0, KEY)];
    var e2 := e1 + [Enqueue(1, KEY)];
    var e3 := e2 + [Assign(A, Remote(1))];
    assert [] + e1 == e1 && e3 + [Assign(B, Remote(0))] == OPENING;
    Snoc([], Enqueue(0, KEY), guarded);
    Snoc(e1, Enqueue(1, KEY), guarded);
    Snoc(e2, Assign(A, Remote(1)), guarded);
    Snoc(e3, Assign(B, Remote(0)), guarded);
  }

  lemma SentRun(guarded: bool)
    ensures Run(OPENING + [Send(A)] + [Send(B)], guarded)
         == Crossed(true, true, {Request(A, 1, 1, KEY), Request(B, 1, 0, KEY)}, map[])
  {
    OpeningRun(guarded);
    Snoc(OPENING, Send(A), guarded);
    assert Run(OPENING + [Send(A)], guarded) == Crossed(true, false, {Request(A, 1, 1, KEY)}, map[]);
    Snoc(OPENING + [Send(A)], Send(B), guarded);
  }

  lemma CrossingRun(guarded: bool)
    ensures Run(OPENING + CROSSING, guarded)
         == Crossed(true, true, {}, if guarded then map[] else map[(A, 1) := B, (B, 1) := A])
  {
    var ra, rb := Request(A, 1, 1, KEY), Request(B, 1, 0, KEY);
    var c2 := OPENING + [Send(A)] + [Send(B)];
    var c3 := c2 + [Deliver(ra)];
    assert c3 + [Deliver(rb)] == OPENING + CROSSING;
    SentRun(guarded);
    Snoc(c2, Deliver(ra), guarded);
    assert Run(c3, guarded) == Crossed(true, true, {rb}, if guarded then map[] else map[(A, 1) := B]);
    Snoc(c3, Deliver(rb), guarded);
  }

  /** The guard is what keeps the circle away: without it two instances that ask each other wait for ever. */
  lemma WithoutTheGuard()
    ensures exists actions, path: seq<Instance> ::
              IsWaitPath(Run(actions, false), KEY, path) && path[0] == path[|path| - 1]
  {
    CrossingRun(false);
    var actions := OPENING + CROSSING;
    var s := Run(actions, false);
    assert Awaits(s, A) == Some(B) && Awaits(s, B) == Some(A);
    assert WaitsFor(s, KEY, 0, 1) && WaitsFor(s, KEY, 1, 0);
    var path := [0, 1, 0];
    assert IsWaitPath(s, KEY, path);
  }
}
