/** The transitive closure over the store database, in either direction, by a frontier search. */
module Closure {
  import opened Optional

  type Path = string

  /** The tables the search reads: each valid path with its deriver, references, and derivation outputs. */
  datatype Database = Database(
    deriver: map<Path, Option<Path>>,
    refs: set<(Path, Path)>,
    outputs: set<(Path, Option<Path>)>)
  {
    predicate Valid(p: Path) {
      p in deriver
    }
  }

  datatype Flags = Flags(flip: bool, includeOutputs: bool, includeDerivers: bool)

  // ----------------------------------------------------------- the five queries

  function References(db: Database, p: Path): (r: set<Path>) {
    set e | e in db.refs && e.0 == p && db.Valid(p) && db.Valid(e.1) && e.1 != p :: e.1
  }

  function Referrers(db: Database, p: Path): (r: set<Path>) {
    set e | e in db.refs && e.1 == p && db.Valid(p) && db.Valid(e.0) && e.0 != p :: e.0
  }

  function OutputsOf(db: Database, p: Path): (r: set<Path>) {
    set e | e in db.outputs && e.0 == p && db.Valid(p) && e.1.Some? :: e.1.value
  }

  function DeriversOf(db: Database, p: Path): (r: set<Path>) {
    set e | e in db.outputs && e.1 == Some(p) && db.Valid(e.0) :: e.0
  }

  function DeriverOf(db: Database, p: Path): (r: set<Path>) {
    if db.Valid(p) && db.deriver[p].Some? then {db.deriver[p].value} else {}
  }

  /** The paths one step away under the flags. */
  function Step(db: Database, f: Flags, p: Path): (r: set<Path>) {
    if f.flip then
      Referrers(db, p)
      + (if f.includeOutputs then DeriversOf(db, p) else {})
      + (if f.includeDerivers then OutputsOf(db, p) else {})
    else
      References(db, p)
      + (if f.includeOutputs then OutputsOf(db, p) else {})
      + (if f.includeDerivers then DeriverOf(db, p) else {})
  }

  /** The edges of a path, from the tables: its references or referrers, and with the flags its outputs and derivers. */
  lemma StepIff(db: Database, f: Flags, p: Path, q: Path)
    ensures q in Step(db, f, p) <==>
              if f.flip then
                || ((q, p) in db.refs && p in db.deriver && q in db.deriver && p != q)
                || (f.includeOutputs && (q, Some(p)) in db.outputs && q in db.deriver)
                || (f.includeDerivers && (p, Some(q)) in db.outputs && p in db.deriver)
              else
                || ((p, q) in db.refs && p in db.deriver && q in db.deriver && p != q)
                || (f.includeOutputs && (p, Some(q)) in db.outputs && p in db.deriver)
                || (f.includeDerivers && p in db.deriver && db.deriver[p] == Some(q))
  {
    EdgesIff(db, p, q);
  }

  lemma EdgesIff(db: Database, p: Path, q: Path)
    ensures q in References(db, p) <==> (p, q) in db.refs && p in db.deriver && q in db.deriver && p != q
    ensures q in Referrers(db, p) <==> (q, p) in db.refs && p in db.deriver && q in db.deriver && p != q
    ensures q in OutputsOf(db, p) <==> (p, Some(q)) in db.outputs && p in db.deriver
    ensures q in DeriversOf(db, p) <==> (q, Some(p)) in db.outputs && q in db.deriver
  {
    var out: (Path, Option<Path>) := (p, Some(q));
    assert (p, q) in db.refs ==> (p, q).0 == p && (p, q).1 == q;
    assert out in db.outputs ==> out.0 == p && out.1 == Some(q);
  }

  // ------------------------------------------------------------- reachability

  predicate IsWalk(db: Database, f: Flags, w: seq<Path>) {
    w != [] && forall i | 0 <= i < |w| - 1 :: w[i + 1] in Step(db, f, w[i])
  }

  ghost predicate Reaches(db: Database, f: Flags, x: Path, y: Path) {
    exists w :: IsWalk(db, f, w) && w[0] == x && w[|w| - 1] == y
  }

  /** Every path the tables name. */
  function Named(db: Database): (r: set<Path>) {
    db.deriver.Keys
    + (set p | p in db.deriver && db.deriver[p].Some? :: db.deriver[p].value)
    + (set e | e in db.refs :: e.0) + (set e | e in db.refs :: e.1)
    + (set e | e in db.outputs :: e.0) + (set e | e in db.outputs && e.1.Some? :: e.1.value)
  }

  /** The paths reachable from the start set. */
  ghost function ClosureSet(db: Database, f: Flags, start: set<Path>): (r: set<Path>) {
    set y | y in start + Named(db) && exists x | x in start :: Reaches(db, f, x, y)
  }

  lemma StepNamed(db: Database, f: Flags, p: Path)
    ensures Step(db, f, p) <= Named(db)
  {
  }

  lemma ReachesSelf(db: Database, f: Flags, x: Path)
    ensures Reaches(db, f, x, x)
  {
    var w := [x];
    assert IsWalk(db, f, w) && w[0] == x && w[|w| - 1] == x;
  }

  lemma ReachesStep(db: Database, f: Flags, x: Path, y: Path, z: Path)
    requires Reaches(db, f, x, y) && z in Step(db, f, y)
    ensures Reaches(db, f, x, z)
  {
    var w :| IsWalk(db, f, w) && w[0] == x && w[|w| - 1] == y;
    var v := w + [z];
    assert forall i | 0 <= i < |v| - 1 :: v[i + 1] in Step(db, f, v[i]);
    assert IsWalk(db, f, v) && v[0] == x && v[|v| - 1] == z;
  }

  ghost predicate Closed(db: Database, f: Flags, s: set<Path>) {
    forall p, q | p in s && q in Step(db, f, p) :: q in s
  }

  /** A walk that starts in a closed set stays in it. */
  lemma {:induction false} WalkStays(db: Database, f: Flags, s: set<Path>, w: seq<Path>, i: nat)
    requires Closed(db, f, s) && IsWalk(db, f, w) && w[0] in s && i < |w|
    ensures w[i] in s
  {
    if i > 0 {
      WalkStays(db, f, s, w, i - 1);
      assert w[(i - 1) + 1] in Step(db, f, w[i - 1]);
    }
  }

  /** The closure is closed, holds the start set, and lies in every closed set that does. */
  lemma ClosureIsLeast(db: Database, f: Flags, start: set<Path>, s: set<Path>)
    ensures start <= ClosureSet(db, f, start)
    ensures Closed(db, f, ClosureSet(db, f, start))
    ensures start <= s && Closed(db, f, s) ==> ClosureSet(db, f, start) <= s
  {
    var c := ClosureSet(db, f, start);
    forall x | x in start
      ensures x in c
    {
      ReachesSelf(db, f, x);
    }
    forall p, q | p in c && q in Step(db, f, p)
      ensures q in c
    {
      var x :| x in start && Reaches(db, f, x, p);
      ReachesStep(db, f, x, p, q);
      StepNamed(db, f, p);
    }
    if start <= s && Closed(db, f, s) {
      forall y | y in c
        ensures y in s
      {
        var x :| x in start && Reaches(db, f, x, y);
        var w :| IsWalk(db, f, w) && w[0] == x && w[|w| - 1] == y;
        WalkStays(db, f, s, w, |w| - 1);
      }
    }
  }

  // ---------------------------------------------------------------- the search

  /** The edge functions the flags select, in the order the search applies them. */
  method Edges(db: Database, f: Flags) returns (edges: seq<Path -> set<Path>>)
    ensures forall p: Path :: EdgeUnion(edges, p) == Step(db, f, p)
  {
    if f.flip {
      edges := [p => Referrers(db, p)];
      if f.includeOutputs {
        edges := edges + [p => DeriversOf(db, p)];
      }
      if f.includeDerivers {
        edges := edges + [p => OutputsOf(db, p)];
      }
    } else {
      edges := [p => References(db, p)];
      if f.includeOutputs {
        edges := edges + [p => OutputsOf(db, p)];
      }
      if f.includeDerivers {
        edges := edges + [p => DeriverOf(db, p)];
      }
    }
    forall p: Path
      ensures EdgeUnion(edges, p) == Step(db, f, p)
    {
      EdgeUnionUpToThree(edges, p);
    }
  }

  ghost function EdgeUnion(edges: seq<Path -> set<Path>>, p: Path): (r: set<Path>) {
    if edges == [] then {} else EdgeUnion(edges[..|edges| - 1], p) + edges[|edges| - 1](p)
  }

  lemma EdgeUnionUpToThree(edges: seq<Path -> set<Path>>, p: Path)
    requires 1 <= |edges| <= 3
    ensures |edges| == 1 ==> EdgeUnion(edges, p) == edges[0](p)
    ensures |edges| == 2 ==> EdgeUnion(edges, p) == edges[0](p) + edges[1](p)
    ensures |edges| == 3 ==> EdgeUnion(edges, p) == edges[0](p) + edges[1](p) + edges[2](p)
  {
    assert EdgeUnion(edges[..1], p) == edges[0](p) by {
      assert edges[..1][..0] == [];
    }
    if |edges| >= 2 {
      assert edges[..2][..1] == edges[..1];
      assert EdgeUnion(edges[..2], p) == edges[0](p) + edges[1](p);
    }
    assert edges[..|edges|] == edges;
  }

  /** Follows every edge of one path: what is new joins the closure and the next frontier. */
  method Visit(edges: seq<Path -> set<Path>>, p: Path, seen: set<Path>, found: set<Path>)
    returns (closure: set<Path>, next: set<Path>)
    ensures closure == seen + EdgeUnion(edges, p)
    ensures next == found + (EdgeUnion(edges, p) - seen)
  {
    closure, next := seen, found;
    for i := 0 to |edges|
      invariant closure == seen + EdgeUnion(edges[..i], p)
      invariant next == found + (EdgeUnion(edges[..i], p) - seen)
    {
      assert edges[..i + 1][..i] == edges[..i];
      var new_ := edges[i](p) - closure;
      next := next + new_;
      closure := closure + new_;
    }
    assert edges[..|edges|] == edges;
  }

  /** All paths but those of `open` have their neighbours in the set. */
  ghost predicate ClosedBut(db: Database, f: Flags, s: set<Path>, inside: set<Path>, open: set<Path>) {
    forall p, q | p in inside - open && q in Step(db, f, p) :: q in s
  }

  /** One pass over the frontier. */
  method Expand(edges: seq<Path -> set<Path>>, frontier: set<Path>, seen: set<Path>,
    ghost db: Database, ghost f: Flags, ghost target: set<Path>)
    returns (closure: set<Path>, next: set<Path>)
    requires forall p: Path :: EdgeUnion(edges, p) == Step(db, f, p)
    requires frontier <= seen <= target && Closed(db, f, target) && ClosedBut(db, f, seen, seen, frontier)
    ensures closure == seen + next && next !! seen && closure <= target
    ensures ClosedBut(db, f, closure, seen, {})
  {
    closure, next := seen, {};
    var todo := frontier;
    while todo != {}
      invariant todo <= frontier
      invariant closure == seen + next && next !! seen && closure <= target
      invariant ClosedBut(db, f, closure, seen, todo)
      decreases todo
    {
      var p :| p in todo;
      assert EdgeUnion(edges, p) == Step(db, f, p);
      closure, next := Visit(edges, p, closure, next);
      todo := todo - {p};
    }
  }

  /** The search answers exactly the reachable paths. */
  method ComputeFsClosure(db: Database, start: set<Path>, f: Flags) returns (closure: set<Path>)
    ensures closure == ClosureSet(db, f, start)
  {
    var edges := Edges(db, f);
    ghost var target := ClosureSet(db, f, start);
    ClosureIsLeast(db, f, start, target);
    closure := start;
    var frontier := start;
    while frontier != {}
      invariant start <= closure <= target && frontier <= closure
      invariant ClosedBut(db, f, closure, closure, frontier)
      decreases target - closure, frontier
    {
      closure, frontier := Expand(edges, frontier, closure, db, f, target);
    }
    ClosureIsLeast(db, f, start, closure);
  }

  // ------------------------------------------------------------------- duality

  function Reversed(w: seq<Path>): (r: seq<Path>)
    ensures |r| == |w|
  {
    seq(|w|, i requires 0 <= i < |w| => w[|w| - 1 - i])
  }

  lemma StepDual(db: Database, outputs: bool, x: Path, y: Path)
    ensures y in Step(db, Flags(false, outputs, false), x) <==> x in Step(db, Flags(true, outputs, false), y)
  {
    assert (x, y) in db.refs && db.Valid(x) && db.Valid(y) && x != y <==> y in References(db, x);
    assert (x, y) in db.refs && db.Valid(x) && db.Valid(y) && x != y <==> x in Referrers(db, y);
    assert (x, Some(y)) in db.outputs && db.Valid(x) <==> y in OutputsOf(db, x);
    assert (x, Some(y)) in db.outputs && db.Valid(x) <==> x in DeriversOf(db, y);
  }

  lemma WalkDual(db: Database, flip: bool, outputs: bool, w: seq<Path>)
    requires IsWalk(db, Flags(flip, outputs, false), w)
    ensures IsWalk(db, Flags(!flip, outputs, false), Reversed(w))
  {
    var r := Reversed(w);
    forall i | 0 <= i < |r| - 1
      ensures r[i + 1] in Step(db, Flags(!flip, outputs, false), r[i])
    {
      var k := |w| - 2 - i;
      assert w[k + 1] in Step(db, Flags(flip, outputs, false), w[k]);
      StepDual(db, outputs, if flip then w[k + 1] else w[k], if flip then w[k] else w[k + 1]);
    }
  }

  /** Walking references forwards and referrers backwards are the same relation, with or without outputs. */
  lemma ReachesDual(db: Database, outputs: bool, x: Path, y: Path)
    ensures Reaches(db, Flags(false, outputs, false), x, y) <==> Reaches(db, Flags(true, outputs, false), y, x)
  {
    if Reaches(db, Flags(false, outputs, false), x, y) {
      var w :| IsWalk(db, Flags(false, outputs, false), w) && w[0] == x && w[|w| - 1] == y;
      WalkDual(db, false, outputs, w);
      assert Reversed(w)[0] == y;
    }
    if Reaches(db, Flags(true, outputs, false), y, x) {
      var w :| IsWalk(db, Flags(true, outputs, false), w) && w[0] == y && w[|w| - 1] == x;
      WalkDual(db, true, outputs, w);
      assert Reversed(w)[0] == x;
    }
  }
}
