/** Editing an archive as a tree: `NarPath` rebuilds immutable trees along one path. */
module NarTree {
  import opened NarFormat
  import opened Optional

  type Path = seq<string>

  // -------------------------------------------------------------- resolution

  /** The first entry of a name. */
  function Lookup(es: seq<Entry>, name: string): (r: Option<Node>) {
    if es == [] then None
    else if es[0].name == name then Some(es[0].node)
    else Lookup(es[1..], name)
  }

  /** The node at a path; `None` is the error of a path that does not lead to one. */
  function Resolve(t: Node, p: Path): (r: Option<Node>)
    decreases p
  {
    if p == [] then Some(t)
    else if !t.Directory? then None
    else
      var child :- Lookup(t.entries, p[0]);
      Resolve(child, p[1..])
  }

  /** The first entry of a name. */
  method FindEntry(es: seq<Entry>, name: string) returns (r: Option<Node>)
    ensures r == Lookup(es, name)
  {
    for i := 0 to |es|
      invariant Lookup(es, name) == Lookup(es[i..], name)
    {
      assert es[i..][1..] == es[i + 1..];
      if es[i].name == name {
        return Some(es[i].node);
      }
    }
    r := None;
  }

  /** The walk of `_resolve` down the parts of a path. */
  method ResolvePath(root: Node, parts: Path) returns (r: Option<Node>)
    ensures r == Resolve(root, parts)
  {
    var node := root;
    for i := 0 to |parts|
      invariant Resolve(root, parts) == Resolve(node, parts[i..])
    {
      assert parts[i..][1..] == parts[i + 1..];
      if !node.Directory? {
        return None;
      }
      var child := FindEntry(node.entries, parts[i]);
      if child.None? {
        return None;
      }
      node := child.value;
    }
    r := Some(node);
  }

  predicate IsDirectory(t: Node, p: Path) {
    Resolve(t, p).Some? && Resolve(t, p).value.Directory?
  }

  /** No directory holds a name twice. */
  predicate Unique(t: Node)
    decreases t, 1
  {
    t.Directory? ==> UniqueEntries(t.entries)
  }

  predicate UniqueEntries(es: seq<Entry>)
    decreases es, 0
  {
    es == [] || (Lookup(es[1..], es[0].name).None? && Unique(es[0].node) && UniqueEntries(es[1..]))
  }

  // ------------------------------------------------------------------ edits

  /** Rebuilds the tree with `new` at the path. */
  function Replace(t: Node, p: Path, new_: Node): (r: Option<Node>)
    decreases p, 1
  {
    if p == [] then Some(new_)
    else if !t.Directory? || Lookup(t.entries, p[0]).None? then None
    else
      var es :- ReplaceIn(t.entries, p, new_);
      Some(Directory(es))
  }

  /** Rebuilds every entry of the name, as the loop over the entries does. */
  function ReplaceIn(es: seq<Entry>, p: Path, new_: Node): (r: Option<seq<Entry>>)
    requires p != []
    decreases p, 0, es
  {
    if es == [] then Some([])
    else
      var head :- if es[0].name == p[0] then Replace(es[0].node, p[1..], new_) else Some(es[0].node);
      var tail :- ReplaceIn(es[1..], p, new_);
      Some([Entry(es[0].name, head)] + tail)
  }

  function InsertChild(t: Node, dir: Path, name: string, node: Node): (r: Option<Node>) {
    var target :- Resolve(t, dir);
    if !target.Directory? || Lookup(target.entries, name).Some? then None
    else Replace(t, dir, Directory(target.entries + [Entry(name, node)]))
  }

  function Parent(p: Path): (r: Path)
    requires p != []
  {
    p[..|p| - 1]
  }

  function Name(p: Path): (r: string)
    requires p != []
  {
    p[|p| - 1]
  }

  function WriteBytes(t: Node, p: Path, data: Bytes, executable: bool): (r: Option<Node>) {
    var file := Regular(data, executable);
    if Resolve(t, p).Some? then
      if IsDirectory(t, p) && p != [] then None else Replace(t, p, file)
    else if Resolve(t, Parent(p)).None? then None
    else InsertChild(t, Parent(p), Name(p), file)
  }

  function Mkdir(t: Node, p: Path, parents: bool): (r: Option<Node>)
    decreases |p|
  {
    if Resolve(t, p).Some? then (if IsDirectory(t, p) then Some(t) else None)
    else if Resolve(t, Parent(p)).Some? then InsertChild(t, Parent(p), Name(p), Directory([]))
    else if !parents then None
    else
      var root :- Mkdir(t, Parent(p), true);
      InsertChild(root, Parent(p), Name(p), Directory([]))
  }

  function Without(es: seq<Entry>, name: string): (r: seq<Entry>) {
    if es == [] then []
    else (if es[0].name == name then [] else [es[0]]) + Without(es[1..], name)
  }

  function Unlink(t: Node, p: Path): (r: Option<Node>) {
    if Resolve(t, p).None? || p == [] then None
    else
      var target :- Resolve(t, Parent(p));
      if !target.Directory? then None
      else Replace(t, Parent(p), Directory(Without(target.entries, Name(p))))
  }

  // ----------------------------------------------------- resolution in steps

  lemma {:induction false} ResolveAppend(t: Node, p: Path, q: Path)
    ensures Resolve(t, p + q) == if Resolve(t, p).None? then None else Resolve(Resolve(t, p).value, q)
    decreases p
  {
    if p == [] {
      assert p + q == q;
    } else {
      assert (p + q)[0] == p[0] && (p + q)[1..] == p[1..] + q;
      if t.Directory? && Lookup(t.entries, p[0]).Some? {
        ResolveAppend(Lookup(t.entries, p[0]).value, p[1..], q);
      }
    }
  }

  lemma ResolveChild(t: Node, p: Path)
    requires p != []
    ensures Resolve(t, p) == if IsDirectory(t, Parent(p)) then Lookup(Resolve(t, Parent(p)).value.entries, Name(p)) else None
  {
    assert p == Parent(p) + [Name(p)];
    ResolveAppend(t, Parent(p), [Name(p)]);
    assert [Name(p)][1..] == [];
  }

  // ------------------------------------------------------- laws of replacing

  /** Under every name but the path's the entries read as before; under the path's the first is rebuilt. */
  lemma {:induction false} LookupReplaced(es: seq<Entry>, p: Path, new_: Node, name: string)
    requires p != [] && ReplaceIn(es, p, new_).Some?
    ensures var r := Lookup(ReplaceIn(es, p, new_).value, name);
            if name != p[0] then r == Lookup(es, name)
            else if Lookup(es, name).None? then r == None
            else Replace(Lookup(es, name).value, p[1..], new_).Some?
                 && r == Replace(Lookup(es, name).value, p[1..], new_)
    decreases es
  {
    if es != [] {
      LookupReplaced(es[1..], p, new_, name);
      var es' := ReplaceIn(es, p, new_).value;
      assert es'[1..] == ReplaceIn(es[1..], p, new_).value;
    }
  }

  /** The new node stands at the path, under it, and nowhere else. */
  lemma {:induction false} ReplaceLaw(t: Node, p: Path, new_: Node, q: Path)
    requires Replace(t, p, new_).Some?
    ensures var t' := Replace(t, p, new_).value;
            && (p <= q ==> Resolve(t', q) == Resolve(new_, q[|p|..]))
            && (!(p <= q) && !(q <= p) ==> Resolve(t', q) == Resolve(t, q))
            && (q < p ==> IsDirectory(t, q) && IsDirectory(t', q))
    decreases p
  {
    var t' := Replace(t, p, new_).value;
    if p == [] {
      assert q[0..] == q;
    } else if q != [] {
      LookupReplaced(t.entries, p, new_, q[0]);
      if q[0] == p[0] {
        ReplaceLaw(Lookup(t.entries, p[0]).value, p[1..], new_, q[1..]);
        PrefixTail(p, q);
        if p <= q {
          assert q[1..][|p| - 1..] == q[|p|..];
        }
      }
    }
  }

  lemma PrefixTail(p: Path, q: Path)
    requires p != [] && q != [] && p[0] == q[0]
    ensures p <= q <==> p[1..] <= q[1..]
    ensures q <= p <==> q[1..] <= p[1..]
    ensures q < p <==> q[1..] < p[1..]
  {
    assert p == [p[0]] + p[1..] && q == [q[0]] + q[1..];
  }

  lemma {:induction false} LookupUnique(es: seq<Entry>, name: string)
    requires UniqueEntries(es) && Lookup(es, name).Some?
    ensures Unique(Lookup(es, name).value)
  {
    if es[0].name != name {
      LookupUnique(es[1..], name);
    }
  }

  /** Among unique names a path that resolves can be replaced, and the names stay unique. */
  lemma {:induction false} ReplaceUnique(t: Node, p: Path, new_: Node)
    requires Unique(t) && Unique(new_) && Resolve(t, p).Some?
    ensures Replace(t, p, new_).Some? && Unique(Replace(t, p, new_).value)
    decreases p, 1
  {
    if p != [] {
      ReplaceInUnique(t.entries, p, new_);
    }
  }

  lemma {:induction false} ReplaceInUnique(es: seq<Entry>, p: Path, new_: Node)
    requires p != [] && UniqueEntries(es) && Unique(new_)
    requires Lookup(es, p[0]).Some? ==> Resolve(Lookup(es, p[0]).value, p[1..]).Some?
    ensures ReplaceIn(es, p, new_).Some? && UniqueEntries(ReplaceIn(es, p, new_).value)
    decreases p, 0, es
  {
    if es != [] {
      if es[0].name == p[0] {
        ReplaceUnique(es[0].node, p[1..], new_);
      }
      ReplaceInUnique(es[1..], p, new_);
      LookupReplaced(es[1..], p, new_, es[0].name);
      var es' := ReplaceIn(es, p, new_).value;
      assert es'[1..] == ReplaceIn(es[1..], p, new_).value;
    }
  }

  // ------------------------------------------------------ laws of inserting

  lemma {:induction false} LookupSnoc(es: seq<Entry>, e: Entry, name: string)
    ensures Lookup(es + [e], name)
         == if Lookup(es, name).Some? then Lookup(es, name) else if e.name == name then Some(e.node) else None
  {
    if es == [] {
      assert es + [e] == [e];
    } else {
      assert (es + [e])[1..] == es[1..] + [e];
      LookupSnoc(es[1..], e, name);
    }
  }

  lemma {:induction false} SnocUnique(es: seq<Entry>, e: Entry)
    requires UniqueEntries(es) && Lookup(es, e.name).None? && Unique(e.node)
    ensures UniqueEntries(es + [e])
  {
    if es == [] {
      assert es + [e] == [e];
    } else {
      assert (es + [e])[1..] == es[1..] + [e];
      SnocUnique(es[1..], e);
      LookupSnoc(es[1..], e, es[0].name);
    }
  }

  lemma {:induction false} ResolveUnique(t: Node, p: Path)
    requires Unique(t) && Resolve(t, p).Some?
    ensures Unique(Resolve(t, p).value)
    decreases p
  {
    if p != [] {
      LookupUnique(t.entries, p[0]);
      ResolveUnique(Lookup(t.entries, p[0]).value, p[1..]);
    }
  }

  /** A file, or a directory with nothing in it: a node that no path leads through. */
  predicate Leaf(n: Node) {
    n.Directory? ==> n.entries == []
  }

  /** What a new leaf at a path changes, as seen by one path. */
  ghost predicate Grows(t: Node, t': Node, p: Path, leaf: Node, q: Path) {
    && (q == p ==> Resolve(t', q) == Some(leaf))
    && (!(q <= p) ==> Resolve(t', q) == Resolve(t, q))
    && (q < p ==> IsDirectory(t, q) && IsDirectory(t', q))
  }

  /** A directory with one leaf more, as seen by a path into it. */
  lemma NewEntryLaw(es: seq<Entry>, name: string, leaf: Node, r: Path)
    requires r != [] && Leaf(leaf) && Lookup(es, name).None?
    ensures var after := Resolve(Directory(es + [Entry(name, leaf)]), r);
            after == if r == [name] then Some(leaf) else Resolve(Directory(es), r)
  {
    LookupSnoc(es, Entry(name, leaf), r[0]);
    assert r[0] == name && |r| == 1 ==> r == [name];
    assert r == [name] ==> r[1..] == [];
    assert r[0] == name && |r| > 1 ==> Resolve(leaf, r[1..]) == None;
  }

  lemma InsertLaw(t: Node, p: Path, leaf: Node, q: Path)
    requires p != [] && Leaf(leaf) && InsertChild(t, Parent(p), Name(p), leaf).Some?
    ensures Resolve(t, p).None?
    ensures Grows(t, InsertChild(t, Parent(p), Name(p), leaf).value, p, leaf, q)
  {
    var dir := Parent(p);
    var es := Resolve(t, dir).value.entries;
    var new_ := Directory(es + [Entry(Name(p), leaf)]);
    ResolveChild(t, p);
    assert p == dir + [Name(p)];
    ReplaceLaw(t, dir, new_, q);
    if dir <= q {
      var r := q[|dir|..];
      assert q == dir + r;
      ResolveAppend(t, dir, r);
      if r != [] {
        NewEntryLaw(es, Name(p), leaf, r);
        assert q == p <==> r == [Name(p)];
      } else {
        assert q == dir;
      }
    } else {
      assert q < dir <==> q < p;
    }
  }

  lemma InsertUnique(t: Node, p: Path, leaf: Node)
    requires p != [] && Unique(t) && Unique(leaf)
    requires IsDirectory(t, Parent(p)) && Resolve(t, p).None?
    ensures InsertChild(t, Parent(p), Name(p), leaf).Some?
    ensures Unique(InsertChild(t, Parent(p), Name(p), leaf).value)
  {
    ResolveChild(t, p);
    ResolveUnique(t, Parent(p));
    var es := Resolve(t, Parent(p)).value.entries;
    SnocUnique(es, Entry(Name(p), leaf));
    ReplaceUnique(t, Parent(p), Directory(es + [Entry(Name(p), leaf)]));
  }

  // ------------------------------------------------------------ write_bytes

  /**
    A successful write at a path below the root puts the file there, and every path that is not a
    prefix of it resolves as before.
   */
  lemma WriteBytesLaw(t: Node, p: Path, data: Bytes, executable: bool, q: Path)
    requires p != [] && WriteBytes(t, p, data, executable).Some?
    ensures Grows(t, WriteBytes(t, p, data, executable).value, p, Regular(data, executable), q)
  {
    var file := Regular(data, executable);
    if Resolve(t, p).Some? {
      ReplaceLaw(t, p, file, q);
      if p <= q {
        assert q == p + q[|p|..];
        ResolveAppend(t, p, q[|p|..]);
      }
    } else {
      InsertLaw(t, p, file, q);
    }
  }

  /** When a write succeeds, and that it keeps the names unique. */
  lemma WriteBytesSucceeds(t: Node, p: Path, data: Bytes, executable: bool)
    requires Unique(t)
    ensures WriteBytes(t, p, data, executable).Some?
       <==> p == [] || (IsDirectory(t, Parent(p)) && !IsDirectory(t, p))
    ensures WriteBytes(t, p, data, executable).Some? ==> Unique(WriteBytes(t, p, data, executable).value)
  {
    var file := Regular(data, executable);
    if p != [] {
      ResolveChild(t, p);
    }
    if Resolve(t, p).Some? {
      ReplaceUnique(t, p, file);
    } else if IsDirectory(t, Parent(p)) {
      InsertUnique(t, p, file);
    }
  }

  // ------------------------------------------------------------------ mkdir

  /**
    A successful `mkdir`: the path and all its prefixes are directories, what they held is still there,
    and every path that is not a prefix of it resolves as before.
   */
  lemma {:induction false} MkdirLaw(t: Node, p: Path, parents: bool, q: Path)
    requires Mkdir(t, p, parents).Some?
    ensures var t' := Mkdir(t, p, parents).value;
            && (q <= p ==> IsDirectory(t', q))
            && (!(q <= p) ==> Resolve(t', q) == Resolve(t, q))
            && (Resolve(t, p).None? ==> Resolve(t', p) == Some(Directory([])))
    decreases |p|
  {
    if Resolve(t, p).Some? {
      if q <= p { PrefixIsDirectory(t, q, p); }
    } else {
      var root := if Resolve(t, Parent(p)).Some? then t else Mkdir(t, Parent(p), true).value;
      if Resolve(t, Parent(p)).None? {
        MkdirLaw(t, Parent(p), true, q);
      }
      InsertLaw(root, p, Directory([]), q);
      InsertLaw(root, p, Directory([]), p);
      assert q <= Parent(p) ==> q < p;
      assert q <= p && q != p ==> q <= Parent(p);
    }
  }

  lemma PrefixIsDirectory(t: Node, q: Path, p: Path)
    requires q <= p && IsDirectory(t, p)
    ensures IsDirectory(t, q)
  {
    assert p == q + p[|q|..];
    ResolveAppend(t, q, p[|q|..]);
  }

  /** Every prefix of the path that exists is a directory. */
  predicate NoFileOnTheWay(t: Node, p: Path) {
    forall k | 0 <= k <= |p| :: Resolve(t, p[..k]).Some? ==> IsDirectory(t, p[..k])
  }

  /** `mkdir` with parents fails exactly where a file is in the way; names stay unique. */
  lemma {:induction false} MkdirSucceeds(t: Node, p: Path)
    requires Unique(t)
    ensures Mkdir(t, p, true).Some? <==> NoFileOnTheWay(t, p)
    ensures Mkdir(t, p, true).Some? ==> Unique(Mkdir(t, p, true).value)
    decreases |p|
  {
    assert p[..|p|] == p;
    if Resolve(t, p).Some? {
      if IsDirectory(t, p) {
        forall k | 0 <= k <= |p|
          ensures IsDirectory(t, p[..k])
        {
          PrefixIsDirectory(t, p[..k], p);
        }
      }
    } else {
      var dir := Parent(p);
      ResolveChild(t, p);
      MkdirSucceeds(t, dir);
      assert forall k | 0 <= k <= |dir| :: dir[..k] == p[..k];
      assert NoFileOnTheWay(t, p) <==> NoFileOnTheWay(t, dir);
      if Mkdir(t, dir, true).Some? {
        var root := Mkdir(t, dir, true).value;
        MkdirLaw(t, dir, true, dir);
        MkdirLaw(t, dir, true, p);
        InsertUnique(root, p, Directory([]));
      }
    }
  }

  /** `mkdir` without parents succeeds exactly on a directory, or where nothing is in a directory; names stay unique. */
  lemma MkdirAloneSucceeds(t: Node, p: Path)
    requires Unique(t)
    ensures Mkdir(t, p, false).Some?
       <==> IsDirectory(t, p) || (p != [] && Resolve(t, p).None? && IsDirectory(t, Parent(p)))
    ensures Mkdir(t, p, false).Some? ==> Unique(Mkdir(t, p, false).value)
  {
    if p != [] && Resolve(t, p).None? && IsDirectory(t, Parent(p)) {
      InsertUnique(t, p, Directory([]));
    }
  }

  // ----------------------------------------------------------------- unlink

  lemma {:induction false} LookupWithout(es: seq<Entry>, gone: string, name: string)
    ensures Lookup(Without(es, gone), name) == if name == gone then None else Lookup(es, name)
  {
    if es != [] {
      LookupWithout(es[1..], gone, name);
      if es[0].name == gone {
        assert Without(es, gone) == Without(es[1..], gone);
      } else {
        assert Without(es, gone)[1..] == Without(es[1..], gone);
      }
    }
  }

  /** A successful `unlink` removes the path and what is under it, and nothing else. */
  lemma UnlinkLaw(t: Node, p: Path, q: Path)
    requires Unlink(t, p).Some?
    ensures var t' := Unlink(t, p).value;
            && (p <= q ==> Resolve(t', q) == None)
            && (!(p <= q) && !(q <= p) ==> Resolve(t', q) == Resolve(t, q))
            && (q < p ==> IsDirectory(t, q) && IsDirectory(t', q))
  {
    var dir := Parent(p);
    var es := Resolve(t, dir).value.entries;
    assert p == dir + [Name(p)];
    ReplaceLaw(t, dir, Directory(Without(es, Name(p))), q);
    if dir <= q {
      var r := q[|dir|..];
      assert q == dir + r;
      ResolveAppend(t, dir, r);
      if r != [] {
        LookupWithout(es, Name(p), r[0]);
        assert r[0] == Name(p) ==> p <= q;
        assert p <= q ==> r[0] == Name(p);
      } else {
        assert q == dir;
      }
    } else {
      assert q < dir <==> q < p;
    }
  }

  lemma {:induction false} WithoutUnique(es: seq<Entry>, gone: string)
    requires UniqueEntries(es)
    ensures UniqueEntries(Without(es, gone))
  {
    if es != [] {
      WithoutUnique(es[1..], gone);
      LookupWithout(es[1..], gone, es[0].name);
      if es[0].name == gone {
        assert Without(es, gone) == Without(es[1..], gone);
      } else {
        assert Without(es, gone)[1..] == Without(es[1..], gone);
      }
    }
  }

  /** `unlink` succeeds on every path below the root that exists; names stay unique. */
  lemma UnlinkSucceeds(t: Node, p: Path)
    requires Unique(t)
    ensures Unlink(t, p).Some? <==> p != [] && Resolve(t, p).Some?
    ensures Unlink(t, p).Some? ==> Unique(Unlink(t, p).value)
  {
    if p != [] && Resolve(t, p).Some? {
      ResolveChild(t, p);
      ResolveUnique(t, Parent(p));
      var es := Resolve(t, Parent(p)).value.entries;
      WithoutUnique(es, Name(p));
      ReplaceUnique(t, Parent(p), Directory(Without(es, Name(p))));
    }
  }

  // ------------------------------------------------------ what unlinking undoes

  /** A second replacement at a path forgets the first. */
  lemma {:induction false} ReplaceTwice(t: Node, p: Path, a: Node, b: Node)
    requires Replace(t, p, a).Some?
    ensures Replace(Replace(t, p, a).value, p, b) == Replace(t, p, b)
    decreases p, 1
  {
    if p != [] {
      ReplaceInTwice(t.entries, p, a, b);
      LookupReplaced(t.entries, p, a, p[0]);
    }
  }

  lemma {:induction false} ReplaceInTwice(es: seq<Entry>, p: Path, a: Node, b: Node)
    requires p != [] && ReplaceIn(es, p, a).Some?
    ensures ReplaceIn(ReplaceIn(es, p, a).value, p, b) == ReplaceIn(es, p, b)
    decreases p, 0, es
  {
    if es != [] {
      var es' := ReplaceIn(es, p, a).value;
      assert es'[1..] == ReplaceIn(es[1..], p, a).value;
      if es[0].name == p[0] {
        ReplaceTwice(es[0].node, p[1..], a, b);
      }
      ReplaceInTwice(es[1..], p, a, b);
    }
  }

  /** Among unique names, replacing a node by itself changes nothing. */
  lemma {:induction false} ReplaceSame(t: Node, p: Path)
    requires Unique(t) && Resolve(t, p).Some?
    ensures Replace(t, p, Resolve(t, p).value) == Some(t)
    decreases p, 1
  {
    if p != [] {
      ReplaceInSame(t.entries, p, Resolve(t, p).value);
    }
  }

  lemma {:induction false} ReplaceInSame(es: seq<Entry>, p: Path, n: Node)
    requires p != [] && UniqueEntries(es)
    requires Lookup(es, p[0]).Some? ==> Resolve(Lookup(es, p[0]).value, p[1..]) == Some(n)
    ensures ReplaceIn(es, p, n) == Some(es)
    decreases p, 0, es
  {
    if es != [] {
      if es[0].name == p[0] {
        ReplaceSame(es[0].node, p[1..]);
      }
      ReplaceInSame(es[1..], p, n);
      assert [Entry(es[0].name, es[0].node)] + es[1..] == es;
    }
  }

  lemma {:induction false} WithoutNew(es: seq<Entry>, e: Entry)
    requires Lookup(es, e.name).None?
    ensures Without(es + [e], e.name) == es
  {
    if es == [] {
      assert es + [e] == [e] && [e][1..] == [];
    } else {
      assert (es + [e])[1..] == es[1..] + [e];
      WithoutNew(es[1..], e);
    }
  }

  /** Writing a new file and unlinking it gives the very tree back. */
  lemma UnlinkUndoesWrite(t: Node, p: Path, data: Bytes, executable: bool)
    requires p != [] && Resolve(t, p).None? && Unique(t)
    requires WriteBytes(t, p, data, executable).Some?
    ensures Unlink(WriteBytes(t, p, data, executable).value, p) == Some(t)
  {
    var dir, file := Parent(p), Regular(data, executable);
    var es := Resolve(t, dir).value.entries;
    var e := Entry(Name(p), file);
    var t1 := WriteBytes(t, p, data, executable).value;
    assert Replace(t, dir, Directory(es + [e])) == Some(t1);
    WriteBytesLaw(t, p, data, executable, p);
    ReplaceLaw(t, dir, Directory(es + [e]), dir);
    assert dir[|dir|..] == [];
    WithoutNew(es, e);
    ReplaceTwice(t, dir, Directory(es + [e]), Directory(es));
    ReplaceSame(t, dir);
  }
}
