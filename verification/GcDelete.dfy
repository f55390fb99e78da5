/**
  The delete loop of the collector: two laps over groups of paths, against a daemon that may delete,
  skip in silence, refuse, time out or hang up. A refused group is split; a path refused alone gets one
  more lap. The daemon's answers are arbitrary functions of the request number and the group.
 */
module GcDelete {

  type Path = string

  const BATCH_SIZE := 100

  datatype DeleteReply = Deleted(paths: set<Path>) | Refused | TimedOut | Broken
  datatype RecheckReply = StillValid(paths: set<Path>) | RecheckFailed

  datatype Daemon = Daemon(delete: (nat, seq<Path>) -> DeleteReply, recheck: (nat, seq<Path>) -> RecheckReply)

  /** A delete answer names paths of its own request only. */
  ghost predicate Honest(d: Daemon) {
    forall i: nat, g: seq<Path> :: d.delete(i, g).Deleted? ==> d.delete(i, g).paths <= Elems(g)
  }

  datatype Ledger = Ledger(
    deleted: set<Path>, recovered: set<Path>, spared: set<Path>, uncertain: set<Path>, timedOut: set<Path>)

  const EMPTY := Ledger({}, {}, {}, {}, {})

  function Elems(s: seq<Path>): (r: set<Path>) {
    set p | p in s
  }

  /** The paths found gone by a recheck count as deleted. */
  function Gone(l: Ledger, gone: set<Path>): (r: Ledger) {
    l.(deleted := l.deleted + gone, recovered := l.recovered + gone)
  }

  /** What one request does to the ledger, whatever the daemon answers. */
  function After(d: Daemon, i: nat, l: Ledger, group: seq<Path>): (r: Ledger) {
    match d.delete(i, group)
    case Deleted(got) => l.(deleted := l.deleted + got, spared := l.spared + (Elems(group) - got))
    case Refused =>
      (match d.recheck(i, group)
       case StillValid(valid) => Gone(l, Elems(group) - valid)
       case RecheckFailed => l.(uncertain := l.uncertain + Elems(group)))
    case TimedOut => l.(uncertain := l.uncertain + Elems(group), timedOut := l.timedOut + Elems(group))
    case Broken => l.(uncertain := l.uncertain + Elems(group))
  }

  /** The ledger once all the requests were answered. */
  function LedgerAfter(d: Daemon, requests: seq<seq<Path>>): (r: Ledger) {
    if requests == [] then EMPTY
    else
      var i := |requests| - 1;
      After(d, i, LedgerAfter(d, requests[..i]), requests[i])
  }

  // ------------------------------------------------------------- conservation

  function One(b: bool): (n: nat) {
    if b then 1 else 0
  }

  /** Each path of `all` is in exactly one place: still to do, deleted, spared or uncertain. */
  ghost predicate Conserved(all: set<Path>, l: Ledger, todo: seq<Path>) {
    forall p: Path :: Places(l, todo, p) == One(p in all)
  }

  function Places(l: Ledger, todo: seq<Path>, p: Path): (n: nat) {
    multiset(todo)[p] + One(p in l.deleted) + One(p in l.spared) + One(p in l.uncertain)
  }

  /** The paths of a list that are in a set, in order. */
  function Keep(s: seq<Path>, valid: set<Path>): (r: seq<Path>)
    ensures |r| <= |s|
    ensures forall p :: p in r <==> p in s && p in valid
  {
    if s == [] then []
    else (if s[0] in valid then [s[0]] else []) + Keep(s[1..], valid)
  }

  lemma {:induction false} KeepCount(s: seq<Path>, valid: set<Path>, p: Path)
    ensures multiset(Keep(s, valid))[p] == if p in valid then multiset(s)[p] else 0
  {
    if s != [] {
      KeepCount(s[1..], valid, p);
      assert s == [s[0]] + s[1..];
    }
  }

  /** A path the group shares with no other place. */
  lemma GroupApart(all: set<Path>, l: Ledger, group: seq<Path>, rest: seq<Path>, p: Path)
    requires Conserved(all, l, group + rest) && p in group
    ensures multiset(group)[p] == 1 && multiset(rest)[p] == 0
    ensures p in all && p !in l.deleted && p !in l.spared && p !in l.uncertain
  {
    assert Places(l, group + rest, p) == One(p in all);
    assert p in multiset(group);
  }

  /** One answered request moves each path of its group to one place; a refused group keeps what is valid. */
  lemma RequestConserves(d: Daemon, i: nat, all: set<Path>, l: Ledger, group: seq<Path>, rest: seq<Path>)
    requires Honest(d) && Conserved(all, l, group + rest)
    ensures Conserved(all, After(d, i, l, group), Remaining(d, i, group) + rest)
  {
    var l' := After(d, i, l, group);
    forall p: Path
      ensures Places(l', Remaining(d, i, group) + rest, p) == One(p in all)
    {
      assert Places(l, group + rest, p) == One(p in all);
      if p in group {
        GroupApart(all, l, group, rest, p);
      } else {
        assert multiset(group)[p] == 0;
      }
      if d.delete(i, group).Refused? && d.recheck(i, group).StillValid? {
        KeepCount(group, d.recheck(i, group).paths, p);
      }
    }
  }

  /** The paths of a refused group that are still valid; of any other group, none. */
  function Remaining(d: Daemon, i: nat, group: seq<Path>): (r: seq<Path>) {
    if d.delete(i, group).Refused? && d.recheck(i, group).StillValid?
    then Keep(group, d.recheck(i, group).paths)
    else []
  }

  // ------------------------------------------------------------------ groups

  function Flat(queue: seq<seq<Path>>): (r: seq<Path>) {
    if queue == [] then [] else queue[0] + Flat(queue[1..])
  }

  function Batched(s: seq<Path>): (r: seq<seq<Path>>) {
    if |s| == 0 then []
    else if |s| <= BATCH_SIZE then [s]
    else [s[..BATCH_SIZE]] + Batched(s[BATCH_SIZE..])
  }

  predicate Sized(queue: seq<seq<Path>>) {
    forall g | g in queue :: 1 <= |g| <= BATCH_SIZE
  }

  /** The requests a queue can still cause: a group of n splits into at most 2n - 1 of them. */
  function Work(queue: seq<seq<Path>>): (n: int) {
    if queue == [] then 0 else 2 * |queue[0]| - 1 + Work(queue[1..])
  }

  lemma {:induction false} WorkPositive(queue: seq<seq<Path>>)
    requires Sized(queue)
    ensures Work(queue) >= |queue|
  {
    if queue != [] {
      WorkPositive(queue[1..]);
    }
  }

  lemma {:induction false} BatchedGroups(s: seq<Path>)
    ensures Flat(Batched(s)) == s && Sized(Batched(s)) && Work(Batched(s)) <= 2 * |s|
    decreases |s|
  {
    if |s| > BATCH_SIZE {
      BatchedGroups(s[BATCH_SIZE..]);
      var b := Batched(s);
      assert b[1..] == Batched(s[BATCH_SIZE..]);
      assert s == s[..BATCH_SIZE] + s[BATCH_SIZE..];
    } else if s != [] {
      assert [s][1..] == [];
      assert Flat([s]) == s + Flat([]);
    }
  }

  /** How often a group of n is asked about one of its paths at most, when each refusal halves it. */
  function Halvings(n: nat): (r: nat)
    ensures n >= 1 ==> r >= 1
  {
    if n <= 1 then n else 1 + Halvings((n + 1) / 2)
  }

  lemma {:induction false} HalvingsMonotone(m: nat, n: nat)
    requires m <= n
    ensures Halvings(m) <= Halvings(n)
    decreases n
  {
    if m >= 2 {
      HalvingsMonotone((m + 1) / 2, (n + 1) / 2);
    }
  }

  lemma HalvingsOfBatch()
    ensures Halvings(BATCH_SIZE) == 8
  {
    assert Halvings(2) == 2;
    assert Halvings(4) == 3;
    assert Halvings(7) == 4;
    assert Halvings(13) == 5;
    assert Halvings(25) == 6;
    assert Halvings(50) == 7;
  }

  // ---------------------------------------------------------------- requests

  /** How many of the requests name the path, and how many name it alone. */
  function Naming(requests: seq<seq<Path>>, p: Path): (n: nat) {
    if requests == [] then 0
    else Naming(requests[..|requests| - 1], p) + One(p in requests[|requests| - 1])
  }

  function Alone(requests: seq<seq<Path>>, p: Path): (n: nat) {
    if requests == [] then 0
    else Alone(requests[..|requests| - 1], p) + One(requests[|requests| - 1] == [p])
  }

  lemma {:induction false} CountsAppend(a: seq<seq<Path>>, b: seq<seq<Path>>, p: Path)
    ensures Naming(a + b, p) == Naming(a, p) + Naming(b, p)
    ensures Alone(a + b, p) == Alone(a, p) + Alone(b, p)
    decreases |b|
  {
    if b == [] {
      assert a + b == a;
    } else {
      var n := |b| - 1;
      assert (a + b)[..|a| + n] == a + b[..n];
      assert (a + b)[|a| + n] == b[n];
      CountsAppend(a, b[..n], p);
    }
  }

  /** The daemon refused the path alone in a request of the lap, and it was still valid. */
  ghost predicate RefusedAlone(d: Daemon, start: nat, lap: seq<seq<Path>>, p: Path) {
    exists i | 0 <= i < |lap| ::
      && lap[i] == [p] && d.delete(start + i, [p]).Refused?
      && d.recheck(start + i, [p]).StillValid? && p in d.recheck(start + i, [p]).paths
  }

  /** No request names a path that was deleted, spared or left uncertain before it. */
  ghost predicate NoneTwice(d: Daemon, requests: seq<seq<Path>>) {
    forall i | 0 <= i < |requests| ::
      && 1 <= |requests[i]| <= BATCH_SIZE
      && var l := LedgerAfter(d, requests[..i]);
         Elems(requests[i]) !! l.deleted + l.spared + l.uncertain
  }

  // --------------------------------------------------------------- one lap

  /** The groups a refused group is split into: halves, in front of the queue. */
  function Halves(remaining: seq<Path>): (r: seq<seq<Path>>) {
    if remaining == [] then []
    else
      var middle := if |remaining| / 2 < 1 then 1 else |remaining| / 2;
      if remaining[middle..] == [] then [remaining] else [remaining[..middle], remaining[middle..]]
  }

  lemma HalvesOf(remaining: seq<Path>)
    ensures Flat(Halves(remaining)) == remaining
    ensures forall g | g in Halves(remaining) :: 1 <= |g| <= (|remaining| + 1) / 2
    ensures |remaining| >= 2 ==> Work(Halves(remaining)) == 2 * |remaining| - 2
    ensures |remaining| == 1 ==> Work(Halves(remaining)) == 1
  {
    var h := Halves(remaining);
    if |h| == 1 {
      assert h[1..] == [];
    } else if |h| == 2 {
      assert h[1..] == [h[1]] && h[1..][1..] == [];
      assert h[0] + h[1] == remaining;
      assert Flat(h[1..]) == h[1] + Flat([]) && Work(h[1..]) == 2 * |h[1]| - 1;
    }
  }

  lemma {:induction false} FlatAppend(a: seq<seq<Path>>, b: seq<seq<Path>>)
    ensures Flat(a + b) == Flat(a) + Flat(b)
    ensures Work(a + b) == Work(a) + Work(b)
  {
    if a == [] {
      assert a + b == b;
    } else {
      assert (a + b)[1..] == a[1..] + b;
      FlatAppend(a[1..], b);
    }
  }

  lemma {:induction false} FlatHolds(queue: seq<seq<Path>>, p: Path)
    ensures p in Flat(queue) <==> exists g | g in queue :: p in g
  {
    if queue != [] {
      FlatHolds(queue[1..], p);
      assert queue == [queue[0]] + queue[1..];
    }
  }

  /** The ledger is what the requests made it, and every path is in one place. */
  ghost predicate Accounted(d: Daemon, all: set<Path>, todo: seq<Path>, requests: seq<seq<Path>>, l: Ledger) {
    && l == LedgerAfter(d, requests)
    && Conserved(all, l, todo)
    && NoneTwice(d, requests)
  }

  /** The requests of the lap so far, and those its queue can still cause, stay within bounds. */
  ghost predicate Bounded(n: nat, queue: seq<seq<Path>>, lap: seq<seq<Path>>) {
    && Sized(queue) && Sized(lap)
    && |lap| + Work(queue) <= 2 * n
    && Counted(lap, queue)
  }

  /** What a lap over `n` paths keeps at every turn, behind `start` earlier requests; `lap` are its own. */
  ghost predicate LapInvariant(
    d: Daemon, all: set<Path>, start: nat, n: nat, queue: seq<seq<Path>>, retry: seq<Path>,
    requests: seq<seq<Path>>, lap: seq<seq<Path>>, l: Ledger)
  {
    && |requests| == start + |lap|
    && Accounted(d, all, Flat(queue) + retry, requests, l)
    && Bounded(n, queue, lap)
    && AllRefused(d, start, lap, retry)
  }

  /** Each path that waits for another lap was refused alone in this one. */
  ghost predicate AllRefused(d: Daemon, start: nat, lap: seq<seq<Path>>, retry: seq<Path>) {
    forall p | p in retry :: RefusedAlone(d, start, lap, p)
  }

  /** The requests of the lap name each path at most as often as its group can still be halved. */
  ghost predicate Counted(lap: seq<seq<Path>>, queue: seq<seq<Path>>) {
    && (forall p: Path :: Naming(lap, p) <= 8 && Alone(lap, p) <= 1)
    && (forall g, p | g in queue && p in g :: Naming(lap, p) + Halvings(|g|) <= 8 && Alone(lap, p) == 0)
  }

  lemma CountedStep(lap: seq<seq<Path>>, group: seq<Path>, rest: seq<seq<Path>>, halves: seq<seq<Path>>)
    requires Counted(lap, [group] + rest) && |group| >= 1
    requires forall g, p | g in rest && p in g :: p !in group
    requires forall g | g in halves :: 1 <= |g| <= (|group| + 1) / 2 && Elems(g) <= Elems(group)
    requires halves != [] ==> |group| > 1
    ensures Counted(lap + [group], halves + rest)
  {
    var queue := [group] + rest;
    assert group in queue && forall g | g in rest :: g in queue;
    var lap' := lap + [group];
    assert lap'[..|lap|] == lap;
    forall p: Path
      ensures Naming(lap', p) <= 8 && Alone(lap', p) <= 1
    {
      if p in group { assert Naming(lap, p) + Halvings(|group|) <= 8; }
    }
    forall g, p | g in halves + rest && p in g
      ensures Naming(lap', p) + Halvings(|g|) <= 8 && Alone(lap', p) == 0
    {
      if g in halves {
        assert p in Elems(g) && p in group;
        assert Naming(lap, p) + Halvings(|group|) <= 8 && Alone(lap, p) == 0;
        HalvingsMonotone(|g|, (|group| + 1) / 2);
      }
    }
  }

  lemma NoneTwiceStep(d: Daemon, all: set<Path>, requests: seq<seq<Path>>, group: seq<Path>, rest: seq<Path>)
    requires NoneTwice(d, requests) && 1 <= |group| <= BATCH_SIZE
    requires Conserved(all, LedgerAfter(d, requests), group + rest)
    ensures NoneTwice(d, requests + [group])
    ensures LedgerAfter(d, requests + [group]) == After(d, |requests|, LedgerAfter(d, requests), group)
  {
    var requests' := requests + [group];
    assert requests'[..|requests|] == requests;
    forall i | 0 <= i < |requests'|
      ensures 1 <= |requests'[i]| <= BATCH_SIZE
      ensures var l := LedgerAfter(d, requests'[..i]);
              Elems(requests'[i]) !! l.deleted + l.spared + l.uncertain
    {
      if i == |requests| {
        forall p | p in group
          ensures var l := LedgerAfter(d, requests); p !in l.deleted && p !in l.spared && p !in l.uncertain
        {
          GroupApart(all, LedgerAfter(d, requests), group, rest, p);
        }
      } else {
        assert requests'[..i] == requests[..i];
      }
    }
  }

  function Requeued(group: seq<Path>, remaining: seq<Path>): (r: seq<seq<Path>>) {
    if |group| == 1 then [] else Halves(remaining)
  }

  function Retried(group: seq<Path>, remaining: seq<Path>): (r: seq<Path>) {
    if |group| == 1 then remaining else []
  }

  lemma TurnConserves(d: Daemon, i: nat, all: set<Path>, l: Ledger, group: seq<Path>, rest: seq<seq<Path>>, retry: seq<Path>)
    requires Honest(d) && Conserved(all, l, group + (Flat(rest) + retry))
    ensures var remaining := Remaining(d, i, group);
            Conserved(all, After(d, i, l, group),
                      Flat(Requeued(group, remaining) + rest) + (retry + Retried(group, remaining)))
  {
    var remaining := Remaining(d, i, group);
    var halves, again := Requeued(group, remaining), Retried(group, remaining);
    RequestConserves(d, i, all, l, group, Flat(rest) + retry);
    HalvesOf(remaining);
    FlatAppend(halves, rest);
    Shuffle(Flat(halves), Flat(rest), retry, again, remaining);
    ConservedPermutes(all, After(d, i, l, group), remaining + (Flat(rest) + retry),
                      Flat(halves + rest) + (retry + again));
  }

  lemma Shuffle(a: seq<Path>, b: seq<Path>, c: seq<Path>, e: seq<Path>, whole: seq<Path>)
    requires (a == whole && e == []) || (a == [] && e == whole)
    ensures multiset(whole + (b + c)) == multiset((a + b) + (c + e))
  {
  }

  lemma TurnCounts(all: set<Path>, l: Ledger, lap: seq<seq<Path>>, queue: seq<seq<Path>>, retry: seq<Path>, remaining: seq<Path>)
    requires queue != [] && Sized(queue) && Counted(lap, queue)
    requires Conserved(all, l, queue[0] + (Flat(queue[1..]) + retry))
    requires |remaining| <= |queue[0]| && Elems(remaining) <= Elems(queue[0])
    ensures Counted(lap + [queue[0]], Requeued(queue[0], remaining) + queue[1..])
  {
    var group, rest := queue[0], queue[1..];
    var halves := Requeued(group, remaining);
    assert queue == [group] + rest;
    HalvesOf(remaining);
    forall g, p | g in rest && p in g
      ensures p !in group
    {
      if p in group {
        GroupApart(all, l, group, Flat(rest) + retry, p);
        FlatHolds(rest, p);
      }
    }
    forall g, p | g in halves && p in g
      ensures p in group
    {
      FlatHolds(halves, p);
      assert p in Elems(remaining);
    }
    CountedStep(lap, group, rest, halves);
  }

  lemma TurnWork(queue: seq<seq<Path>>, remaining: seq<Path>)
    requires queue != [] && Sized(queue) && |remaining| <= |queue[0]|
    ensures Sized(Requeued(queue[0], remaining) + queue[1..])
    ensures 0 <= Work(Requeued(queue[0], remaining) + queue[1..]) < Work(queue)
  {
    var halves := Requeued(queue[0], remaining);
    HalvesOf(remaining);
    FlatAppend(halves, queue[1..]);
    WorkPositive(halves + queue[1..]);
  }

  /** One turn of the lap: the first group is asked for, and what remains of it is split or retried. */
  lemma LapStep(
    d: Daemon, all: set<Path>, start: nat, n: nat, queue: seq<seq<Path>>, retry: seq<Path>,
    requests: seq<seq<Path>>, lap: seq<seq<Path>>, l: Ledger)
    requires Honest(d) && queue != []
    requires LapInvariant(d, all, start, n, queue, retry, requests, lap, l)
    ensures var group, i := queue[0], |requests|;
            var remaining := Remaining(d, i, group);
            && LapInvariant(d, all, start, n, Requeued(group, remaining) + queue[1..], retry + Retried(group, remaining),
                            requests + [group], lap + [group], After(d, i, l, group))
            && 0 <= Work(Requeued(group, remaining) + queue[1..]) < Work(queue)
  {
    var group, i := queue[0], |requests|;
    var remaining := Remaining(d, i, group);
    var todo, again := Requeued(group, remaining) + queue[1..], retry + Retried(group, remaining);
    AccountedStep(d, all, queue, retry, requests, l);
    BoundedStep(d, i, all, l, n, queue, retry, lap);
    RetryStep(d, start, lap, retry, group);
    LapHolds(d, all, start, n, todo, again, requests + [group], lap + [group], After(d, i, l, group));
  }

  lemma LapHolds(
    d: Daemon, all: set<Path>, start: nat, n: nat, queue: seq<seq<Path>>, retry: seq<Path>,
    requests: seq<seq<Path>>, lap: seq<seq<Path>>, l: Ledger)
    requires |requests| == start + |lap| && Accounted(d, all, Flat(queue) + retry, requests, l)
    requires Bounded(n, queue, lap) && AllRefused(d, start, lap, retry)
    ensures LapInvariant(d, all, start, n, queue, retry, requests, lap, l)
  {
  }

  lemma AccountedStep(d: Daemon, all: set<Path>, queue: seq<seq<Path>>, retry: seq<Path>, requests: seq<seq<Path>>, l: Ledger)
    requires Honest(d) && queue != [] && Sized(queue)
    requires Accounted(d, all, Flat(queue) + retry, requests, l)
    ensures var group := queue[0];
            var remaining := Remaining(d, |requests|, group);
            Accounted(d, all, Flat(Requeued(group, remaining) + queue[1..]) + (retry + Retried(group, remaining)),
                      requests + [group], After(d, |requests|, l, group))
  {
    var group, rest := queue[0], queue[1..];
    FlatHead(queue, retry);
    NoneTwiceStep(d, all, requests, group, Flat(rest) + retry);
    TurnConserves(d, |requests|, all, l, group, rest, retry);
  }

  lemma BoundedStep(d: Daemon, i: nat, all: set<Path>, l: Ledger, n: nat,
    queue: seq<seq<Path>>, retry: seq<Path>, lap: seq<seq<Path>>)
    requires queue != [] && Conserved(all, l, Flat(queue) + retry)
    requires Bounded(n, queue, lap)
    ensures var remaining := Remaining(d, i, queue[0]);
            && Bounded(n, Requeued(queue[0], remaining) + queue[1..], lap + [queue[0]])
            && 0 <= Work(Requeued(queue[0], remaining) + queue[1..]) < Work(queue)
  {
    var remaining := Remaining(d, i, queue[0]);
    FlatHead(queue, retry);
    TurnCounts(all, l, lap, queue, retry, remaining);
    TurnWork(queue, remaining);
  }

  lemma FlatHead(queue: seq<seq<Path>>, retry: seq<Path>)
    requires queue != []
    ensures Flat(queue) + retry == queue[0] + (Flat(queue[1..]) + retry)
  {
  }

  lemma RetryStep(d: Daemon, start: nat, lap: seq<seq<Path>>, retry: seq<Path>, group: seq<Path>)
    requires AllRefused(d, start, lap, retry)
    ensures AllRefused(d, start, lap + [group], retry + Retried(group, Remaining(d, start + |lap|, group)))
  {
    var again := Retried(group, Remaining(d, start + |lap|, group));
    var lap' := lap + [group];
    forall p | p in retry + again
      ensures RefusedAlone(d, start, lap', p)
    {
      if p in retry {
        var i :| 0 <= i < |lap| && lap[i] == [p] && d.delete(start + i, [p]).Refused?
          && d.recheck(start + i, [p]).StillValid? && p in d.recheck(start + i, [p]).paths;
        assert lap'[i] == [p];
      } else {
        assert lap'[|lap|] == [p];
      }
    }
  }

  lemma ConservedPermutes(all: set<Path>, l: Ledger, a: seq<Path>, b: seq<Path>)
    requires Conserved(all, l, a) && multiset(a) == multiset(b)
    ensures Conserved(all, l, b)
  {
    forall p: Path
      ensures Places(l, b, p) == One(p in all)
    {
      assert Places(l, a, p) == One(p in all);
    }
  }

  method Filtered(s: seq<Path>, valid: set<Path>) returns (r: seq<Path>)
    ensures r == Keep(s, valid)
  {
    r := [];
    for i := 0 to |s|
      invariant r + Keep(s[i..], valid) == Keep(s, valid)
    {
      assert s[i..][0] == s[i] && s[i..][1..] == s[i + 1..];
      ghost var tail := Keep(s[i + 1..], valid);
      if s[i] in valid {
        assert r + ([s[i]] + tail) == r + [s[i]] + tail;
        r := r + [s[i]];
      } else {
        assert [] + tail == tail;
      }
    }
    assert s[|s|..] == [] && r + [] == r;
  }

  /** What one request told of a path it named. */
  datatype Fate = Took | Skipped | FoundMissing | Stays | Interrupted | RanOutOfTime

  function FateOf(d: Daemon, i: nat, group: seq<Path>, p: Path): (f: Fate) {
    match d.delete(i, group)
    case Deleted(paths) => if p in paths then Took else Skipped
    case TimedOut => RanOutOfTime
    case Broken => Interrupted
    case Refused =>
      (match d.recheck(i, group)
       case StillValid(paths) => if p in paths then Stays else FoundMissing
       case RecheckFailed => Interrupted)
  }

  /** The ledger after a request has gained, of a path it named, exactly what the replies say of it. */
  ghost predicate Entered(d: Daemon, i: nat, group: seq<Path>, before: Ledger, l: Ledger, p: Path) {
    var f := FateOf(d, i, group, p);
    && (p in l.deleted <==> p in before.deleted || f == Took || f == FoundMissing)
    && (p in l.recovered <==> p in before.recovered || f == FoundMissing)
    && (p in l.spared <==> p in before.spared || f == Skipped)
    && (p in l.uncertain <==> p in before.uncertain || f == Interrupted || f == RanOutOfTime)
    && (p in l.timedOut <==> p in before.timedOut || f == RanOutOfTime)
  }

  /** Sends one request, and rechecks a refused group; `connected` is false when the connection is spent. */
  method Ask(d: Daemon, i: nat, ledger: Ledger, group: seq<Path>)
    returns (l: Ledger, remaining: seq<Path>, connected: bool)
    ensures l == After(d, i, ledger, group)
    ensures remaining == Remaining(d, i, group)
    ensures forall p | p in group :: Entered(d, i, group, ledger, l, p) && (p in remaining <==> FateOf(d, i, group, p) == Stays)
    ensures connected <==> d.delete(i, group).Deleted?
                           || (d.delete(i, group).Refused? && d.recheck(i, group).StillValid?)
  {
    l, remaining, connected := ledger, [], true;
    match d.delete(i, group) {
      case Refused =>
        match d.recheck(i, group) {
          case RecheckFailed =>
            l := l.(uncertain := l.uncertain + Elems(group));
            connected := false;
          case StillValid(valid) =>
            l := Gone(l, Elems(group) - valid);
            remaining := Filtered(group, valid);
        }
      case TimedOut =>
        l := l.(uncertain := l.uncertain + Elems(group), timedOut := l.timedOut + Elems(group));
        connected := false;
      case Broken =>
        l := l.(uncertain := l.uncertain + Elems(group));
        connected := false;
      case Deleted(got) =>
        l := l.(deleted := l.deleted + got, spared := l.spared + (Elems(group) - got));
    }
  }

  /** Puts what remains of a refused group back: to the retry list, or in halves at the head of the queue. */
  method Split(group: seq<Path>, remaining: seq<Path>, rest: seq<seq<Path>>, retry: seq<Path>)
    returns (queue: seq<seq<Path>>, again: seq<Path>)
    ensures queue == Requeued(group, remaining) + rest
    ensures again == retry + Retried(group, remaining)
  {
    queue, again := rest, retry;
    if |group| == 1 {
      again := again + remaining;
    } else if remaining != [] {
      var middle := if |remaining| / 2 < 1 then 1 else |remaining| / 2;
      if remaining[middle..] != [] {
        queue := [remaining[middle..]] + queue;
      } else {
        assert remaining[..middle] == remaining;
      }
      queue := [remaining[..middle]] + queue;
    }
  }

  /** One lap: asks for group after group until the queue is empty, on a new connection after each break. */
  method RunLap(
    d: Daemon, pending: seq<Path>, before: seq<seq<Path>>, ledger: Ledger, ghost all: set<Path>)
    returns (l: Ledger, retry: seq<Path>, requests: seq<seq<Path>>, lap: seq<seq<Path>>)
    requires Honest(d) && Accounted(d, all, pending, before, ledger)
    ensures requests == before + lap
    ensures LapInvariant(d, all, |before|, |pending|, [], retry, requests, lap, l)
  {
    l, retry, requests, lap := ledger, [], before, [];
    var queue := Batched(pending);
    LapStarts(d, all, pending, before, ledger);
    WorkPositive(queue);
    while queue != []
      invariant requests == before + lap && Work(queue) >= 0
      invariant LapInvariant(d, all, |before|, |pending|, queue, retry, requests, lap, l)
      decreases Work(queue)
    {
      var connected := true;
      ghost var work := Work(queue);
      while queue != [] && connected
        invariant requests == before + lap && Work(queue) >= 0
        invariant LapInvariant(d, all, |before|, |pending|, queue, retry, requests, lap, l)
        invariant Work(queue) < work || (connected && Work(queue) == work && queue != [])
        decreases Work(queue)
      {
        LapStep(d, all, |before|, |pending|, queue, retry, requests, lap, l);
        var group := queue[0];
        var remaining;
        l, remaining, connected := Ask(d, |requests|, l, group);
        SnocAppend(before, lap, group);
        requests, lap := requests + [group], lap + [group];
        queue, retry := Split(group, remaining, queue[1..], retry);
      }
    }
  }

  lemma SnocAppend(a: seq<seq<Path>>, b: seq<seq<Path>>, group: seq<Path>)
    ensures (a + b) + [group] == a + (b + [group])
  {
  }

  lemma LapStarts(d: Daemon, all: set<Path>, pending: seq<Path>, before: seq<seq<Path>>, ledger: Ledger)
    requires Accounted(d, all, pending, before, ledger)
    ensures LapInvariant(d, all, |before|, |pending|, Batched(pending), [], before, [], ledger)
  {
    BatchedGroups(pending);
    HalvingsOfBatch();
    assert Flat(Batched(pending)) + [] == pending;
    forall g, p | g in Batched(pending) && p in g
      ensures Naming([], p) + Halvings(|g|) <= 8
    {
      HalvingsMonotone(|g|, BATCH_SIZE);
    }
  }

  // ------------------------------------------------------------ the whole run

  /** The batch without repeats, each path where it stood first. */
  method Distinct(batch: seq<Path>) returns (r: seq<Path>)
    ensures forall p: Path :: multiset(r)[p] == One(p in batch)
  {
    r := [];
    for i := 0 to |batch|
      invariant forall p: Path :: multiset(r)[p] == One(p in batch[..i])
    {
      assert batch[..i + 1] == batch[..i] + [batch[i]];
      if batch[i] !in r {
        r := r + [batch[i]];
      }
    }
    assert batch[..|batch|] == batch;
  }

  lemma {:induction false} SimpleLength(s: seq<Path>, all: set<Path>)
    requires forall p: Path :: multiset(s)[p] == One(p in all)
    ensures |s| == |all|
    decreases |s|
  {
    if s == [] {
      assert forall p: Path :: One(p in all) == multiset(s)[p] == 0;
      assert all == {};
    } else {
      var p := s[0];
      assert s == [p] + s[1..];
      assert p in multiset(s) && p in all;
      forall q: Path
        ensures multiset(s[1..])[q] == One(q in all - {p})
      {
        assert multiset(s)[q] == One(q in all);
      }
      SimpleLength(s[1..], all - {p});
    }
  }

  /** A list in which conservation leaves room is no longer than the paths there are. */
  lemma {:induction false} PendingLength(all: set<Path>, l: Ledger, todo: seq<Path>)
    requires Conserved(all, l, todo)
    ensures |todo| <= |all|
  {
    var left := Elems(todo);
    forall p: Path
      ensures multiset(todo)[p] == One(p in left)
    {
      assert Places(l, todo, p) == One(p in all);
      assert p in todo <==> p in multiset(todo);
    }
    forall p | p in left
      ensures p in all
    {
      assert Places(l, todo, p) == One(p in all);
    }
    SimpleLength(todo, left);
    SubsetSize(left, all);
  }

  lemma {:induction false} SubsetSize(a: set<Path>, b: set<Path>)
    requires a <= b
    ensures |a| <= |b|
  {
    if a != {} {
      var x :| x in a;
      SubsetSize(a - {x}, b - {x});
    }
  }

  /** Two requests for each path and lap. */
  function RequestBound(laps: nat, n: nat): (r: nat) {
    if laps == 0 then 0 else 2 * n + RequestBound(laps - 1, n)
  }

  /** What both laps together keep, after `laps` of them. */
  ghost predicate RunInvariant(d: Daemon, all: set<Path>, laps: nat, pending: seq<Path>, requests: seq<seq<Path>>, l: Ledger) {
    && Accounted(d, all, pending, requests, l)
    && |requests| <= RequestBound(laps, |all|) && Sized(requests)
    && (forall p: Path :: Naming(requests, p) <= 8 * laps && Alone(requests, p) <= laps)
    && (forall p | p in pending :: Alone(requests, p) == laps)
  }

  lemma {:induction false} AloneSeen(requests: seq<seq<Path>>, i: nat, p: Path)
    requires i < |requests| && requests[i] == [p]
    ensures Alone(requests, p) >= 1
    decreases |requests|
  {
    var n := |requests| - 1;
    if i < n {
      AloneSeen(requests[..n], i, p);
    }
  }

  /** A lap behind a run is a longer run. */
  lemma LapExtendsRun(
    d: Daemon, all: set<Path>, laps: nat, pending: seq<Path>, before: seq<seq<Path>>, ledger: Ledger,
    retry: seq<Path>, requests: seq<seq<Path>>, lap: seq<seq<Path>>, l: Ledger)
    requires RunInvariant(d, all, laps, pending, before, ledger)
    requires requests == before + lap
    requires LapInvariant(d, all, |before|, |pending|, [], retry, requests, lap, l)
    ensures Conserved(all, l, retry)
    ensures RunInvariant(d, all, laps + 1, retry, requests, l)
  {
    assert Flat([]) + retry == retry;
    PendingLength(all, ledger, pending);
    forall p: Path
      ensures Naming(requests, p) <= 8 * (laps + 1) && Alone(requests, p) <= laps + 1
      ensures p in retry ==> Alone(requests, p) == laps + 1
    {
      CountsAppend(before, lap, p);
      if p in retry {
        assert RefusedAlone(d, |before|, lap, p);
        RetryFromPending(d, all, before, requests, pending, retry, p);
        RefusedSeen(d, |before|, lap, p);
      }
    }
  }

  lemma RefusedSeen(d: Daemon, start: nat, lap: seq<seq<Path>>, p: Path)
    requires RefusedAlone(d, start, lap, p)
    ensures Alone(lap, p) >= 1
  {
    var i :| 0 <= i < |lap| && lap[i] == [p];
    AloneSeen(lap, i, p);
  }

  /** A lap gives back only paths it was given. */
  lemma RetryFromPending(d: Daemon, all: set<Path>, before: seq<seq<Path>>, requests: seq<seq<Path>>,
    pending: seq<Path>, retry: seq<Path>, p: Path)
    requires before <= requests
    requires Conserved(all, LedgerAfter(d, before), pending)
    requires Conserved(all, LedgerAfter(d, requests), retry)
    requires p in retry
    ensures p in pending
  {
    LedgerGrows(d, before, requests);
    assert p in multiset(retry);
    assert Places(LedgerAfter(d, requests), retry, p) == One(p in all);
    assert Places(LedgerAfter(d, before), pending, p) == One(p in all);
    assert p in multiset(pending);
  }

  lemma {:induction false} LedgerGrows(d: Daemon, a: seq<seq<Path>>, b: seq<seq<Path>>)
    requires a <= b
    ensures var la, lb := LedgerAfter(d, a), LedgerAfter(d, b);
            la.deleted <= lb.deleted && la.spared <= lb.spared && la.uncertain <= lb.uncertain
    decreases |b|
  {
    if |a| < |b| {
      LedgerGrows(d, a, b[..|b| - 1]);
    } else {
      assert a == b;
    }
  }

  lemma {:induction false} LedgerShape(d: Daemon, requests: seq<seq<Path>>)
    ensures var l := LedgerAfter(d, requests); l.recovered <= l.deleted && l.timedOut <= l.uncertain
    decreases |requests|
  {
    if requests != [] {
      LedgerShape(d, requests[..|requests| - 1]);
    }
  }

  /** Some order of a set; which one changes only how the rechecks are grouped. */
  method Ordered(s: set<Path>) returns (r: seq<Path>)
    ensures Elems(r) == s
  {
    r := [];
    var left := s;
    while left != {}
      invariant left <= s && Elems(r) == s - left
      decreases left
    {
      var p :| p in left;
      assert Elems(r + [p]) == Elems(r) + {p};
      r := r + [p];
      left := left - {p};
    }
  }

  /** The paths that the last rechecks, one for each group, find gone. */
  function FoundGone(d: Daemon, first: nat, groups: seq<seq<Path>>): (r: set<Path>) {
    if groups == [] then {}
    else
      var k := |groups| - 1;
      FoundGone(d, first, groups[..k])
      + match d.recheck(first + k, groups[k])
        case StillValid(valid) => Elems(groups[k]) - valid
        case RecheckFailed => {}
  }

  /** The groups of the last rechecks: all the uncertain paths, a batch at a time. */
  ghost predicate Regrouped(groups: seq<seq<Path>>, uncertain: set<Path>) {
    Sized(groups) && Elems(Flat(groups)) == uncertain
  }

  lemma {:induction false} FoundAmong(d: Daemon, first: nat, groups: seq<seq<Path>>)
    ensures FoundGone(d, first, groups) <= Elems(Flat(groups))
  {
    if groups != [] {
      var k := |groups| - 1;
      FoundAmong(d, first, groups[..k]);
      forall p | p in FoundGone(d, first, groups)
        ensures p in Flat(groups)
      {
        if p in groups[k] {
          FlatHolds(groups, p);
        } else {
          FlatHolds(groups[..k], p);
          FlatHolds(groups, p);
        }
      }
    }
  }

  lemma GoneOnce(d: Daemon, first: nat, groups: seq<seq<Path>>, k: nat, l: Ledger)
    requires k < |groups|
    ensures Gone(l, FoundGone(d, first, groups[..k + 1]))
         == match d.recheck(first + k, groups[k])
            case StillValid(valid) => Gone(Gone(l, FoundGone(d, first, groups[..k])), Elems(groups[k]) - valid)
            case RecheckFailed => Gone(l, FoundGone(d, first, groups[..k]))
  {
    assert groups[..k + 1][..k] == groups[..k];
  }

  /** The last rechecks: an uncertain path that is gone counts as deleted after all. */
  method Reconcile(d: Daemon, first: nat, ledger: Ledger) returns (l: Ledger, groups: seq<seq<Path>>)
    ensures Regrouped(groups, ledger.uncertain)
    ensures l == Gone(ledger, FoundGone(d, first, groups))
    ensures FoundGone(d, first, groups) <= ledger.uncertain
  {
    l := ledger;
    var order := Ordered(ledger.uncertain);
    groups := Batched(order);
    BatchedGroups(order);
    for k := 0 to |groups|
      invariant l == Gone(ledger, FoundGone(d, first, groups[..k]))
    {
      GoneOnce(d, first, groups, k, ledger);
      var reply := d.recheck(first + k, groups[k]);
      if reply.StillValid? {
        l := Gone(l, Elems(groups[k]) - reply.paths);
      }
    }
    assert groups[..|groups|] == groups;
    FoundAmong(d, first, groups);
  }

  // ------------------------------------------------- what the replies say of a path

  /** Some request of the pass told this of the path. */
  ghost predicate Told(d: Daemon, requests: seq<seq<Path>>, p: Path, f: Fate) {
    exists i :: 0 <= i < |requests| && p in requests[i] && FateOf(d, i, requests[i], p) == f
  }

  /** One of the last rechecks named the path and no longer found it. */
  ghost predicate MissingAtLast(d: Daemon, first: nat, groups: seq<seq<Path>>, p: Path) {
    exists k :: 0 <= k < |groups| && p in groups[k]
                && d.recheck(first + k, groups[k]).StillValid? && p !in d.recheck(first + k, groups[k]).paths
  }

  lemma ToldMore(d: Daemon, requests: seq<seq<Path>>, p: Path, f: Fate)
    requires requests != []
    ensures var n := |requests| - 1;
            Told(d, requests, p, f)
            <==> Told(d, requests[..n], p, f) || (p in requests[n] && FateOf(d, n, requests[n], p) == f)
  {
    var n := |requests| - 1;
    var before := requests[..n];
    assert forall i | 0 <= i < n :: before[i] == requests[i];
  }

  /** What the ledger holds after some requests, told by the replies to them. */
  lemma {:induction false} LedgerMeans(d: Daemon, requests: seq<seq<Path>>, p: Path)
    requires Honest(d)
    ensures var l := LedgerAfter(d, requests);
            && (p in l.deleted <==> Told(d, requests, p, Took) || Told(d, requests, p, FoundMissing))
            && (p in l.recovered <==> Told(d, requests, p, FoundMissing))
            && (p in l.spared <==> Told(d, requests, p, Skipped))
            && (p in l.uncertain <==> Told(d, requests, p, Interrupted) || Told(d, requests, p, RanOutOfTime))
            && (p in l.timedOut <==> Told(d, requests, p, RanOutOfTime))
    decreases |requests|
  {
    if requests != [] {
      var n := |requests| - 1;
      LedgerMeans(d, requests[..n], p);
      ToldMore(d, requests, p, Took);
      ToldMore(d, requests, p, FoundMissing);
      ToldMore(d, requests, p, Skipped);
      ToldMore(d, requests, p, Interrupted);
      ToldMore(d, requests, p, RanOutOfTime);
    }
  }

  lemma {:induction false} FoundMeans(d: Daemon, first: nat, groups: seq<seq<Path>>, p: Path)
    ensures p in FoundGone(d, first, groups) <==> MissingAtLast(d, first, groups, p)
  {
    if groups != [] {
      var k := |groups| - 1;
      var before := groups[..k];
      FoundMeans(d, first, before, p);
      assert forall i | 0 <= i < k :: before[i] == groups[i];
    }
  }

  /** The final ledger, path by path, told by the replies alone. */
  ghost predicate Accurate(d: Daemon, batch: seq<Path>, requests: seq<seq<Path>>, rechecks: seq<seq<Path>>,
    l: Ledger, pending: seq<Path>, p: Path)
  {
    var missing := MissingAtLast(d, |requests|, rechecks, p);
    && (p in l.deleted <==> Told(d, requests, p, Took) || Told(d, requests, p, FoundMissing) || missing)
    && (p in l.recovered <==> Told(d, requests, p, FoundMissing) || missing)
    && (p in l.spared <==> Told(d, requests, p, Skipped))
    && (p in l.uncertain <==> Told(d, requests, p, Interrupted) || Told(d, requests, p, RanOutOfTime))
    && (p in l.timedOut <==> Told(d, requests, p, RanOutOfTime))
    && (p in pending <==> p in batch && forall f | Told(d, requests, p, f) :: f == Stays)
  }

  lemma LedgerIsAccurate(d: Daemon, batch: seq<Path>, requests: seq<seq<Path>>, rechecks: seq<seq<Path>>,
    before: Ledger, pending: seq<Path>, p: Path)
    requires Honest(d) && before == LedgerAfter(d, requests)
    requires Elems(batch) == before.deleted + before.spared + before.uncertain + Elems(pending)
    requires Elems(pending) !! before.deleted + before.spared + before.uncertain
    ensures Accurate(d, batch, requests, rechecks, Gone(before, FoundGone(d, |requests|, rechecks)), pending, p)
  {
    LedgerMeans(d, requests, p);
    FoundMeans(d, |requests|, rechecks, p);
    assert p in pending <==> p in Elems(pending);
    assert p in batch <==> p in Elems(batch);
  }

  /**
    The delete pass over a batch. Whatever the daemon answers, every path of the batch is accounted for
    once; no settled path is asked for again; and the number of requests is bounded.
   */
  method Delete(d: Daemon, batch: seq<Path>)
    returns (l: Ledger, pending: seq<Path>, requests: seq<seq<Path>>, rechecks: seq<seq<Path>>)
    requires Honest(d)
    ensures Elems(batch) == l.deleted + l.spared + l.uncertain + Elems(pending)
    ensures l.deleted !! l.spared && l.deleted !! Elems(pending) && l.spared !! Elems(pending)
    ensures l.uncertain !! l.spared && l.uncertain !! Elems(pending)
    ensures l == Gone(LedgerAfter(d, requests), FoundGone(d, |requests|, rechecks)) && Regrouped(rechecks, l.uncertain)
    ensures forall p: Path :: Accurate(d, batch, requests, rechecks, l, pending, p)
    ensures l.deleted * l.uncertain == FoundGone(d, |requests|, rechecks)
    ensures l.recovered <= l.deleted && l.timedOut <= l.uncertain
    ensures NoneTwice(d, requests)
    ensures |requests| <= 4 * |Elems(batch)| && Sized(requests)
    ensures forall p: Path :: Naming(requests, p) <= 16 && Alone(requests, p) <= 2
    ensures forall p | p in pending :: Alone(requests, p) == 2
  {
    var laps;
    l, pending, requests, laps := RunLaps(d, batch);
    Settled(d, Elems(batch), pending, requests, l);
    LedgerShape(d, requests);
    RunBounds(d, Elems(batch), laps, pending, requests, l);
    ghost var before := l;
    l, rechecks := Reconcile(d, |requests|, l);
    FinalPlaces(Elems(batch), before, FoundGone(d, |requests|, rechecks), Elems(pending));
    forall p: Path {
      LedgerIsAccurate(d, batch, requests, rechecks, before, pending, p);
    }
  }

  /** Uncertain paths found gone are deleted too, and share no other place. */
  lemma FinalPlaces(all: set<Path>, l: Ledger, found: set<Path>, pending: set<Path>)
    requires found <= l.uncertain && all == l.deleted + l.spared + l.uncertain + pending
    requires l.deleted !! l.spared && l.deleted !! l.uncertain && l.spared !! l.uncertain
    requires pending !! l.deleted + l.spared + l.uncertain && l.recovered <= l.deleted
    ensures var after := Gone(l, found);
            && all == after.deleted + after.spared + after.uncertain + pending
            && after.deleted !! after.spared && after.deleted !! pending && after.spared !! pending
            && after.uncertain !! after.spared && after.uncertain !! pending
            && after.deleted * after.uncertain == found && after.recovered <= after.deleted
  {
  }

  /** One lap, and the paths that are left for the next. */
  method OneLap(d: Daemon, l: Ledger, pending: seq<Path>, requests: seq<seq<Path>>, ghost all: set<Path>, ghost laps: nat)
    returns (after: Ledger, left: seq<Path>, asked: seq<seq<Path>>)
    requires Honest(d) && RunInvariant(d, all, laps, pending, requests, l)
    ensures RunInvariant(d, all, laps + 1, left, asked, after)
  {
    var retry, lap;
    after, retry, asked, lap := RunLap(d, pending, requests, l, all);
    LapExtendsRun(d, all, laps, pending, requests, l, retry, asked, lap, after);
    NothingFiltered(all, after, retry);
    left := Filtered(retry, Elems(retry) - after.deleted);
  }

  /** The two laps; the second runs over the paths refused alone in the first. */
  method RunLaps(d: Daemon, batch: seq<Path>)
    returns (l: Ledger, pending: seq<Path>, requests: seq<seq<Path>>, laps: nat)
    requires Honest(d)
    ensures laps <= 2 && (laps == 2 || pending == [])
    ensures RunInvariant(d, Elems(batch), laps, pending, requests, l)
  {
    ghost var all := Elems(batch);
    l, requests, laps := EMPTY, [], 0;
    pending := Distinct(batch);
    RunStarts(d, batch, pending);
    while laps < 2 && pending != []
      invariant laps <= 2
      invariant RunInvariant(d, all, laps, pending, requests, l)
    {
      l, pending, requests := OneLap(d, l, pending, requests, all, laps);
      laps := laps + 1;
    }
  }

  lemma RunStarts(d: Daemon, batch: seq<Path>, pending: seq<Path>)
    requires forall p: Path :: multiset(pending)[p] == One(p in batch)
    ensures RunInvariant(d, Elems(batch), 0, pending, [], EMPTY)
  {
    forall p: Path
      ensures Places(EMPTY, pending, p) == One(p in Elems(batch))
    {
      assert multiset(pending)[p] == One(p in batch);
    }
  }

  lemma RunBounds(d: Daemon, all: set<Path>, laps: nat, pending: seq<Path>, requests: seq<seq<Path>>, l: Ledger)
    requires laps <= 2 && RunInvariant(d, all, laps, pending, requests, l)
    requires laps == 2 || pending == []
    ensures |requests| <= 4 * |all|
    ensures forall p: Path :: Naming(requests, p) <= 16 && Alone(requests, p) <= 2
    ensures forall p | p in pending :: Alone(requests, p) == 2
  {
    TwoLaps(laps, |all|);
  }

  lemma TwoLaps(laps: nat, n: nat)
    requires laps <= 2
    ensures RequestBound(laps, n) <= 4 * n
  {
    assert RequestBound(0, n) == 0;
    assert RequestBound(1, n) == 2 * n;
  }

  lemma NothingFiltered(all: set<Path>, l: Ledger, retry: seq<Path>)
    requires Conserved(all, l, retry)
    ensures Keep(retry, Elems(retry) - l.deleted) == retry
  {
    forall p | p in retry
      ensures p !in l.deleted
    {
      assert retry + [] == retry;
      GroupApart(all, l, retry, [], p);
    }
    KeepAll(retry, Elems(retry) - l.deleted);
  }

  lemma {:induction false} KeepAll(s: seq<Path>, valid: set<Path>)
    requires forall p | p in s :: p in valid
    ensures Keep(s, valid) == s
  {
    if s != [] {
      KeepAll(s[1..], valid);
    }
  }

  lemma Settled(d: Daemon, all: set<Path>, pending: seq<Path>, requests: seq<seq<Path>>, l: Ledger)
    requires Accounted(d, all, pending, requests, l)
    ensures all == l.deleted + l.spared + l.uncertain + Elems(pending)
    ensures l.deleted !! l.spared && l.deleted !! l.uncertain && l.spared !! l.uncertain
    ensures Elems(pending) !! l.deleted + l.spared + l.uncertain
  {
    forall p: Path
      ensures p in all <==> p in l.deleted + l.spared + l.uncertain + Elems(pending)
      ensures One(p in l.deleted) + One(p in l.spared) + One(p in l.uncertain) + One(p in pending) <= 1
    {
      assert Places(l, pending, p) == One(p in all);
      assert p in pending <==> p in multiset(pending);
    }
  }
}
