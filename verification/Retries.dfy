/** The retries of one build: each failure counts against the store it happened on, and three are enough. */
module Retries {

  type StoreId = string

  const MAX_STORE_RETRIES := 3

  /** The counters `reset_for_retry` keeps. */
  datatype Attempts = Attempts(retries: nat, failures: map<StoreId, nat>)

  const NONE := Attempts(0, map[])

  function Failures(a: Attempts, store: StoreId): (n: nat) {
    if store in a.failures then a.failures[store] else 0
  }

  predicate Blacklisted(a: Attempts, store: StoreId) {
    Failures(a, store) >= MAX_STORE_RETRIES
  }

  function Failed(a: Attempts, store: StoreId): (r: Attempts) {
    Attempts(a.retries + 1, a.failures[store := Failures(a, store) + 1])
  }

  /** A failure is counted after an attempt on a store, or when a store goes away that the build was last placed on. */
  datatype Failure = Attempt(store: StoreId) | Removal(store: StoreId)

  /** The counters after these failures, in order. */
  function After(failures: seq<Failure>): (a: Attempts) {
    if failures == [] then NONE
    else Failed(After(failures[..|failures| - 1]), failures[|failures| - 1].store)
  }

  /** The counters without the removals. */
  function Tries(failures: seq<Failure>): (a: Attempts) {
    if failures == [] then NONE
    else
      var last, a := failures[|failures| - 1], Tries(failures[..|failures| - 1]);
      if last.Attempt? then Failed(a, last.store) else a
  }

  /** Each attempt ran on a store of the set that was not blacklisted then; a removal may come at any time. */
  ghost predicate Allowed(failures: seq<Failure>, among: set<StoreId>) {
    forall i | 0 <= i < |failures| && failures[i].Attempt? ::
      failures[i].store in among && !Blacklisted(After(failures[..i]), failures[i].store)
  }

  // -------------------------------------------------------------------- sums

  ghost function Total(a: Attempts, among: set<StoreId>): (n: nat) {
    if among == {} then 0
    else
      var s :| s in among;
      Failures(a, s) + Total(a, among - {s})
  }

  lemma {:induction false} TotalSplit(a: Attempts, among: set<StoreId>, s: StoreId)
    requires s in among
    ensures Total(a, among) == Failures(a, s) + Total(a, among - {s})
  {
    var t :| t in among && Total(a, among) == Failures(a, t) + Total(a, among - {t});
    if t != s {
      TotalSplit(a, among - {t}, s);
      TotalSplit(a, among - {s}, t);
      assert among - {t} - {s} == among - {s} - {t};
    }
  }

  lemma {:induction false} TotalUnaffected(a: Attempts, among: set<StoreId>, s: StoreId)
    requires s !in among
    ensures Total(Failed(a, s), among) == Total(a, among)
  {
    if among != {} {
      var t :| t in among;
      TotalSplit(a, among, t);
      TotalSplit(Failed(a, s), among, t);
      TotalUnaffected(a, among - {t}, s);
    }
  }

  lemma {:induction false} TotalBounded(a: Attempts, among: set<StoreId>)
    requires forall s | s in among :: Failures(a, s) <= MAX_STORE_RETRIES
    ensures Total(a, among) <= MAX_STORE_RETRIES * |among|
    ensures Total(a, among) == MAX_STORE_RETRIES * |among| <==> forall s | s in among :: Blacklisted(a, s)
  {
    if among != {} {
      var t :| t in among;
      TotalSplit(a, among, t);
      TotalBounded(a, among - {t});
      assert |among - {t}| == |among| - 1;
      assert among == (among - {t}) + {t};
    }
  }

  // ----------------------------------------------------------------- theorems

  lemma {:induction false} NothingFailed(among: set<StoreId>)
    ensures Total(NONE, among) == 0
  {
    if among != {} {
      var t :| t in among;
      TotalSplit(NONE, among, t);
      NothingFailed(among - {t});
    }
  }

  lemma TotalFailed(a: Attempts, among: set<StoreId>, s: StoreId)
    requires s in among
    ensures Total(Failed(a, s), among) == Total(a, among) + 1
  {
    TotalSplit(a, among, s);
    TotalSplit(Failed(a, s), among, s);
    TotalUnaffected(a, among - {s}, s);
  }

  /** Retries are the sum of the failures per store, whatever failed and why. */
  lemma {:induction false} RetriesAreCounted(failures: seq<Failure>, among: set<StoreId>)
    requires forall i | 0 <= i < |failures| :: failures[i].store in among
    ensures After(failures).retries == |failures| == Total(After(failures), among)
  {
    if failures == [] {
      NothingFailed(among);
    } else {
      var n := |failures| - 1;
      var before := failures[..n];
      assert forall i | 0 <= i < n :: before[i] == failures[i];
      RetriesAreCounted(before, among);
      TotalFailed(After(before), among, failures[n].store);
    }
  }

  lemma AllowedBefore(failures: seq<Failure>, among: set<StoreId>)
    requires Allowed(failures, among) && failures != []
    ensures Allowed(failures[..|failures| - 1], among)
  {
    var n := |failures| - 1;
    assert forall i | 0 <= i < n :: failures[..n][..i] == failures[..i] && failures[..n][i] == failures[i];
  }

  /** Attempts alone: no store is tried more than three times, and what is tried counts as failed. */
  lemma {:induction false} TriesBounded(failures: seq<Failure>, among: set<StoreId>)
    requires Allowed(failures, among)
    ensures forall s :: Failures(Tries(failures), s) <= Failures(After(failures), s)
    ensures forall s :: Failures(Tries(failures), s) <= MAX_STORE_RETRIES
    ensures Tries(failures).retries == Total(Tries(failures), among)
  {
    if failures == [] {
      NothingFailed(among);
    } else {
      var n := |failures| - 1;
      var before, last := failures[..n], failures[n];
      AllowedBefore(failures, among);
      TriesBounded(before, among);
      forall t
        ensures Failures(After(failures), t) == Failures(After(before), t) + if t == last.store then 1 else 0
      {
      }
      if last.Attempt? {
        TotalFailed(Tries(before), among, last.store);
        forall t
          ensures Failures(Tries(failures), t) == Failures(Tries(before), t) + if t == last.store then 1 else 0
        {
        }
      }
    }
  }

  /**
    A build is tried at most three times for each store it may run on, removals or not, and when it has been, no
    store is left to try.
   */
  lemma RetriesAreBounded(failures: seq<Failure>, among: set<StoreId>)
    requires Allowed(failures, among)
    ensures Tries(failures).retries <= MAX_STORE_RETRIES * |among|
    ensures Tries(failures).retries == MAX_STORE_RETRIES * |among| ==>
              forall s | s in among :: Blacklisted(After(failures), s)
  {
    TriesBounded(failures, among);
    TotalBounded(Tries(failures), among);
  }

  lemma {:induction false} NoRemovals(failures: seq<Failure>)
    requires forall i | 0 <= i < |failures| :: failures[i].Attempt?
    ensures After(failures) == Tries(failures)
  {
    if failures != [] {
      var n := |failures| - 1;
      assert forall i | 0 <= i < n :: failures[..n][i] == failures[i];
      NoRemovals(failures[..n]);
    }
  }

  /** Without removals: three failures for each store at most, reached exactly when every store is blacklisted. */
  lemma ExhaustedIff(failures: seq<Failure>, among: set<StoreId>)
    requires Allowed(failures, among) && forall i | 0 <= i < |failures| :: failures[i].Attempt?
    ensures forall s :: Failures(After(failures), s) <= MAX_STORE_RETRIES
    ensures |failures| == After(failures).retries <= MAX_STORE_RETRIES * |among|
    ensures |failures| == MAX_STORE_RETRIES * |among| <==> forall s | s in among :: Blacklisted(After(failures), s)
  {
    NoRemovals(failures);
    TriesBounded(failures, among);
    TotalBounded(Tries(failures), among);
    RetriesAreCounted(failures, among);
  }
}
