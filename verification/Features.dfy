/** The feature names the two ends of a session exchange and agree on. */
module Features {

  const REALISATION_WITH_PATH := "realisation-with-path-not-hash"
  const ADD_TEMP_ROOTS := "addTempRoots"
  const DELETE_DEAD_REFERRERS := "delete-dead-specific-referrers"
  const SUPPORTED := {REALISATION_WITH_PATH, ADD_TEMP_ROOTS, DELETE_DEAD_REFERRERS}
  const PYNIXD := {"pynixd-build-resources-2"}
  const DELEGATION := "pynixd-delegation"
  const MATRIX := "feature_matrix:"

  /** A store behind the proxy; one that was never probed has the empty matrix. */
  datatype Store = Store(noSchedule: bool, features: set<string>, matrix: map<string, set<string>>)

  /** Some store that a build can go to offers the feature. */
  ghost predicate Offered(stores: seq<Store>, name: string) {
    exists i :: 0 <= i < |stores| && !stores[i].noSchedule && name in stores[i].features
  }

  ghost predicate NamesCell(store: Store, name: string) {
    || (exists system :: system in store.matrix && name == MATRIX + system)
    || (exists system, f :: system in store.matrix && f in store.matrix[system] && name == MATRIX + system + ":" + f)
  }

  ghost predicate InMatrix(stores: seq<Store>, name: string) {
    exists i :: 0 <= i < |stores| && !stores[i].noSchedule && NamesCell(stores[i], name)
  }

  /** `honourable_features`: what any store that can build offers, as far as this code speaks it. */
  method HonourableFeatures(stores: seq<Store>) returns (honourable: set<string>)
    ensures forall name :: name in honourable <==> name in SUPPORTED && Offered(stores, name)
  {
    var all: set<string> := {};
    for i := 0 to |stores|
      invariant forall name :: name in all <==> Offered(stores[..i], name)
    {
      assert forall name :: Offered(stores[..i + 1], name) <==>
               Offered(stores[..i], name) || (!stores[i].noSchedule && name in stores[i].features) by {
        OneStoreMore(stores, i);
      }
      if !stores[i].noSchedule {
        all := all + stores[i].features;
      }
    }
    assert stores[..|stores|] == stores;
    honourable := all * SUPPORTED;
  }

  lemma OneStoreMore(stores: seq<Store>, i: nat)
    requires i < |stores|
    ensures forall name :: Offered(stores[..i + 1], name) <==>
              Offered(stores[..i], name) || (!stores[i].noSchedule && name in stores[i].features)
    ensures forall name :: InMatrix(stores[..i + 1], name) <==>
              InMatrix(stores[..i], name) || (!stores[i].noSchedule && NamesCell(stores[i], name))
  {
    var fewer, more := stores[..i], stores[..i + 1];
    assert forall k | 0 <= k < i :: more[k] == fewer[k];
    assert more[i] == stores[i];
  }

  /** The names of one store's matrix, gathered system by system. */
  method MatrixNames(store: Store) returns (names: set<string>)
    ensures forall name :: name in names <==> NamesCell(store, name)
  {
    names := {};
    var left := store.matrix.Keys;
    while left != {}
      invariant left <= store.matrix.Keys
      invariant forall name :: name in names <==>
                  NamesCell(store.(matrix := map s | s in store.matrix && s !in left :: store.matrix[s]), name)
      decreases |left|
    {
      var system :| system in left;
      ghost var before := store.(matrix := map s | s in store.matrix && s !in left :: store.matrix[s]);
      left := left - {system};
      ghost var after := store.(matrix := map s | s in store.matrix && s !in left :: store.matrix[s]);
      names := names + {MATRIX + system}
               + (set f | f in store.matrix[system] :: MATRIX + system + ":" + f);
      OneSystemMore(before, after, system);
    }
    assert (map s | s in store.matrix && s !in left :: store.matrix[s]) == store.matrix;
  }

  lemma OneSystemMore(before: Store, after: Store, system: string)
    requires system !in before.matrix && system in after.matrix
    requires after.matrix == before.matrix[system := after.matrix[system]]
    ensures forall name :: NamesCell(after, name) <==>
              || NamesCell(before, name) || name == MATRIX + system
              || (exists f :: f in after.matrix[system] && name == MATRIX + system + ":" + f)
  {
    assert forall s :: s in after.matrix <==> s in before.matrix || s == system;
    assert forall s | s in before.matrix :: after.matrix[s] == before.matrix[s];
  }

  /** `server_features`: the names a proxy puts on the wire. */
  method ServerFeatures(extensions: set<string>, honourable: set<string>, stores: seq<Store>)
    returns (names: set<string>)
    ensures forall name :: name in names <==>
              name in extensions + honourable + PYNIXD + {ADD_TEMP_ROOTS} || InMatrix(stores, name)
  {
    names := extensions + honourable + PYNIXD + {ADD_TEMP_ROOTS};
    ghost var own := names;
    for i := 0 to |stores|
      invariant forall name :: name in names <==> name in own || InMatrix(stores[..i], name)
    {
      OneStoreMore(stores, i);
      if !stores[i].noSchedule {
        var cells := MatrixNames(stores[i]);
        names := names + cells;
      }
    }
    assert stores[..|stores|] == stores;
  }

  /** What the client half names. */
  function ClientFeatures(extensions: set<string>): (names: set<string>) {
    extensions + SUPPORTED + PYNIXD + {DELEGATION}
  }

  lemma MatrixIsApart(stores: seq<Store>, name: string)
    requires InMatrix(stores, name)
    ensures name !in SUPPORTED + PYNIXD
  {
    assert |name| >= |MATRIX| && name[0] == MATRIX[0] == 'f';
    assert REALISATION_WITH_PATH[0] == 'r' && ADD_TEMP_ROOTS[0] == 'a' && DELETE_DEAD_REFERRERS[0] == 'd';
    assert "pynixd-build-resources-2"[0] == 'p';
  }

  /**
    Each end intersects what the other named with what it speaks itself. The server agrees to what its stores
    honour; the client agrees to that and to `addTempRoots`, which the proxy answers alone, and to nothing else
    unless an extension took a standard name.
   */
  lemma AgreedFeatures(clientExt: set<string>, serverExt: set<string>, stores: seq<Store>,
                       honourable: set<string>, serverNames: set<string>)
    requires forall name :: name in honourable <==> name in SUPPORTED && Offered(stores, name)
    requires forall name :: name in serverNames <==>
               name in serverExt + honourable + PYNIXD + {ADD_TEMP_ROOTS} || InMatrix(stores, name)
    ensures var server := ClientFeatures(clientExt) * (honourable + PYNIXD);
            var client := serverNames * (SUPPORTED + PYNIXD);
            && server == honourable + PYNIXD
            && server <= client
            && client == server + {ADD_TEMP_ROOTS} + serverExt * (SUPPORTED + PYNIXD)
            && DELEGATION in ClientFeatures(clientExt)
  {
    forall name | InMatrix(stores, name)
      ensures name !in SUPPORTED + PYNIXD
    {
      MatrixIsApart(stores, name);
    }
    assert honourable <= SUPPORTED;
  }
}
