// What the config editor means: setting and clearing a dotted path in a JSON value.
module ConfigTree {
  import opened Options
  import opened Json

  type Path = seq<Units>

  /** The first entry with the key, as `find` looks for it. */
  function IndexOf(entries: seq<Entry>, key: Units): (i: nat)
    ensures i <= |entries|
    ensures i < |entries| ==> entries[i].key == key
    ensures forall k :: 0 <= k < i ==> entries[k].key != key
  {
    if entries == [] || entries[0].key == key then 0 else 1 + IndexOf(entries[1..], key)
  }

  function Get(t: Tree, path: Path): Option<Tree>
    decreases |path|
  {
    if path == [] then Some(t)
    else if !t.Object? || IndexOf(t.entries, path[0]) == |t.entries| then None
    else Get(t.entries[IndexOf(t.entries, path[0])].value, path[1..])
  }

  /** The objects a path has to open to hold a value. */
  function Nest(path: Path, v: Tree): Tree {
    if path == [] then v else Object([Entry(path[0], Nest(path[1..], v))])
  }

  /** The object with the value at the path: replaced in place, or added last in the deepest object there is. */
  function Set(t: Tree, path: Path, v: Tree): (r: Tree)
    requires t.Object? && path != []
    ensures r.Object?
    decreases |path|
  {
    var i := IndexOf(t.entries, path[0]);
    if i == |t.entries| then Object(t.entries + [Entry(path[0], Nest(path[1..], v))])
    else if |path| == 1 then Object(t.entries[i := Entry(path[0], v)])
    else if t.entries[i].value.Object? then
        Object(t.entries[i := Entry(path[0], Set(t.entries[i].value, path[1..], v))])
    else Object(t.entries + [Entry(path[0], Nest(path[1..], v))])
  }

  function Remove(t: Tree, path: Path): (r: Tree)
    requires path != [] && Get(t, path).Some?
    ensures r.Object?
    decreases |path|
  {
    var i := IndexOf(t.entries, path[0]);
    if |path| == 1 then Object(t.entries[..i] + t.entries[i + 1..])
    else Object(t.entries[i := Entry(path[0], Remove(t.entries[i].value, path[1..]))])
  }

  /** Ancestors left empty go too, innermost first, until one is not empty. */
  function Prune(t: Tree, path: Path): (r: Tree)
    ensures t.Object? ==> r.Object?
    decreases |path|
  {
    if path != [] && Get(t, path) == Some(Object([])) then Prune(Remove(t, path), path[..|path| - 1]) else t
  }

  function Clear(t: Tree, path: Path): (r: Tree)
    requires path != []
    ensures t.Object? ==> r.Object?
  {
    Prune(if Get(t, path).Some? then Remove(t, path) else t, path[..|path| - 1])
  }

  /** Every object the path goes through on its way is absent or an object: what a caller can check before setting. */
  predicate Open(t: Tree, path: Path)
    decreases |path|
  {
    |path| <= 1 || !t.Object? ||
    var i := IndexOf(t.entries, path[0]);
    i == |t.entries| || (t.entries[i].value.Object? && Open(t.entries[i].value, path[1..]))
  }

  predicate UniqueKeys(t: Tree)
    decreases t, 0
  {
    match t
    case Object(entries) =>
      (forall i, j :: 0 <= i < j < |entries| ==> entries[i].key != entries[j].key)
      && (forall i :: 0 <= i < |entries| ==> UniqueKeys(entries[i].value))
    case List(items) => forall i :: 0 <= i < |items| ==> UniqueKeys(items[i])
    case _ => true
  }

  // What setting does

  lemma {:induction false} GetNest(path: Path, v: Tree)
    ensures Get(Nest(path, v), path) == Some(v)
  {
    if path != [] {
      GetNest(path[1..], v);
    }
  }

  lemma {:induction false} IndexOfIs(entries: seq<Entry>, key: Units, i: nat)
    requires i <= |entries|
    requires i < |entries| ==> entries[i].key == key
    requires forall k :: 0 <= k < i ==> entries[k].key != key
    ensures IndexOf(entries, key) == i
  {
    if i > 0 {
      IndexOfIs(entries[1..], key, i - 1);
    }
  }

  /** The editor itself finds what it set, exactly when every object on the way was absent or an object. */
  lemma {:induction false} GetSet(t: Tree, path: Path, v: Tree)
    requires t.Object? && path != []
    ensures Get(Set(t, path, v), path) == if Open(t, path) then Some(v) else None
    decreases |path|
  {
    var i, s := IndexOf(t.entries, path[0]), Set(t, path, v);
    IndexOfIs(s.entries, path[0], i);
    if i == |t.entries| {
      GetNest(path[1..], v);
    } else if |path| > 1 && t.entries[i].value.Object? {
      GetSet(t.entries[i].value, path[1..], v);
    }
  }

  /** Neither path leads to or through the other. */
  predicate Apart(p: Path, q: Path) {
    !(p <= q) && !(q <= p)
  }

  lemma ApartTail(p: Path, q: Path)
    requires Apart(p, q) && p[0] == q[0]
    ensures |p| > 1 && |q| > 1 && Apart(p[1..], q[1..])
  {
    assert p == [p[0]] + p[1..] && q == [q[0]] + q[1..];
  }

  lemma {:induction false} GetNestApart(path: Path, v: Tree, other: Path)
    requires Apart(path, other)
    ensures Get(Nest(path, v), other).None?
  {
    if path[0] == other[0] {
      ApartTail(path, other);
      GetNestApart(path[1..], v, other[1..]);
    }
  }

  /** Everything off the path reads as it did. */
  lemma {:induction false} GetSetApart(t: Tree, path: Path, v: Tree, other: Path)
    requires t.Object? && Open(t, path) && Apart(path, other)
    ensures Get(Set(t, path, v), other) == Get(t, other)
    decreases |path|
  {
    var i, s := IndexOf(t.entries, path[0]), Set(t, path, v);
    var k := IndexOf(t.entries, other[0]);
    if path[0] == other[0] {
      ApartTail(path, other);
      IndexOfIs(s.entries, other[0], i);
      if i == |t.entries| {
        GetNestApart(path[1..], v, other[1..]);
      } else {
        GetSetApart(t.entries[i].value, path[1..], v, other[1..]);
      }
    } else if k < |t.entries| {
      IndexOfIs(s.entries, other[0], k);
    } else {
      IndexOfIs(s.entries, other[0], |s.entries|);
    }
  }

  lemma {:induction false} NestUnique(path: Path, v: Tree)
    requires UniqueKeys(v)
    ensures UniqueKeys(Nest(path, v))
  {
    if path != [] {
      NestUnique(path[1..], v);
    }
  }

  /** Setting keeps keys unique exactly when every object on the way is absent or an object. */
  lemma {:induction false} SetKeepsKeysUnique(t: Tree, path: Path, v: Tree)
    requires t.Object? && path != [] && UniqueKeys(t) && UniqueKeys(v)
    ensures UniqueKeys(Set(t, path, v)) <==> Open(t, path)
    decreases |path|
  {
    var i, s := IndexOf(t.entries, path[0]), Set(t, path, v);
    NestUnique(path[1..], v);
    if i < |t.entries| && |path| > 1 {
      if t.entries[i].value.Object? {
        SetKeepsKeysUnique(t.entries[i].value, path[1..], v);
        assert s.entries[i].value == Set(t.entries[i].value, path[1..], v);
      } else {
        assert s.entries[i].key == s.entries[|t.entries|].key;
      }
    }
  }

  // What clearing does

  lemma {:induction false} RemoveKeepsKeysUnique(t: Tree, path: Path)
    requires path != [] && Get(t, path).Some? && UniqueKeys(t)
    ensures UniqueKeys(Remove(t, path))
    decreases |path|
  {
    var i := IndexOf(t.entries, path[0]);
    if |path| > 1 {
      RemoveKeepsKeysUnique(t.entries[i].value, path[1..]);
    }
  }

  lemma {:induction false} GetRemoved(t: Tree, path: Path)
    requires path != [] && Get(t, path).Some? && UniqueKeys(t)
    ensures Get(Remove(t, path), path).None?
    decreases |path|
  {
    var i, r := IndexOf(t.entries, path[0]), Remove(t, path);
    if |path| > 1 {
      IndexOfIs(r.entries, path[0], i);
      GetRemoved(t.entries[i].value, path[1..]);
    } else {
      IndexOfIs(r.entries, path[0], |r.entries|);
    }
  }

  lemma {:induction false} GetRemovedApart(t: Tree, path: Path, other: Path)
    requires path != [] && Get(t, path).Some? && Apart(path, other)
    ensures Get(Remove(t, path), other) == Get(t, other)
    decreases |path|
  {
    var i, k, r := IndexOf(t.entries, path[0]), IndexOf(t.entries, other[0]), Remove(t, path);
    if path[0] == other[0] {
      ApartTail(path, other);
      IndexOfIs(r.entries, other[0], i);
      GetRemovedApart(t.entries[i].value, path[1..], other[1..]);
    } else if |path| > 1 {
      IndexOfIs(r.entries, other[0], k);
    } else {
      IndexOfIs(r.entries, other[0], if i < k then k - 1 else k);
    }
  }

  lemma {:induction false} GetThrough(t: Tree, p: Path, q: Path)
    requires p <= q
    ensures Get(t, p).None? ==> Get(t, q).None?
    ensures Get(t, p).Some? ==> Get(t, q) == Get(Get(t, p).value, q[|p|..])
    decreases |p|
  {
    if p != [] {
      assert p[0] == q[0];
    }
    if p != [] && t.Object? && IndexOf(t.entries, p[0]) < |t.entries| {
      GetThrough(t.entries[IndexOf(t.entries, p[0])].value, p[1..], q[1..]);
      assert q[1..][|p| - 1..] == q[|p|..];
    } else if p == [] {
      assert q[0..] == q;
    }
  }

  lemma {:induction false} PruneKeepsKeysUnique(t: Tree, path: Path)
    requires UniqueKeys(t)
    ensures UniqueKeys(Prune(t, path))
    decreases |path|
  {
    if path != [] && Get(t, path) == Some(Object([])) {
      RemoveKeepsKeysUnique(t, path);
      PruneKeepsKeysUnique(Remove(t, path), path[..|path| - 1]);
    }
  }

  /** Where a path reads the same after pruning: everywhere but at the emptied objects and what would be in them. */
  lemma {:induction false} GetPrunedApart(t: Tree, path: Path, other: Path)
    requires UniqueKeys(t) && !(other <= path)
    ensures Get(Prune(t, path), other) == Get(t, other)
    decreases |path|
  {
    if path != [] && Get(t, path) == Some(Object([])) {
      var up := path[..|path| - 1];
      RemoveKeepsKeysUnique(t, path);
      assert other <= up ==> other <= path;
      GetPrunedApart(Remove(t, path), up, other);
      if path <= other {
        GetThrough(t, path, other);
        GetRemoved(t, path);
        GetThrough(Remove(t, path), path, other);
      } else {
        GetRemovedApart(t, path, other);
      }
    }
  }

  /** After pruning up from an object that is there, no ancestor named by the path is an empty object. */
  lemma {:induction false} NoEmptyAncestor(t: Tree, path: Path, ancestor: Path)
    requires UniqueKeys(t) && Get(t, path).Some? && (Get(t, path).value.Object?)
    requires ancestor != [] && ancestor <= path
    ensures Get(Prune(t, path), ancestor) != Some(Object([]))
    decreases |path|
  {
    if Get(t, path) == Some(Object([])) {
      var up := path[..|path| - 1];
      RemoveKeepsKeysUnique(t, path);
      if ancestor == path {
        GetRemoved(t, path);
        GetPrunedApart(Remove(t, path), up, path);
      } else {
        assert ancestor <= up;
        ParentIsObject(t, path);
        NoEmptyAncestor(Remove(t, path), up, ancestor);
      }
    } else if ancestor != path {
      GetThrough(t, ancestor, path);
    }
  }

  lemma {:induction false} ParentIsObject(t: Tree, path: Path)
    requires path != [] && Get(t, path).Some?
    ensures Get(Remove(t, path), path[..|path| - 1]).Some? && Get(Remove(t, path), path[..|path| - 1]).value.Object?
    decreases |path|
  {
    if |path| > 1 {
      var i, r := IndexOf(t.entries, path[0]), Remove(t, path);
      IndexOfIs(r.entries, path[0], i);
      ParentIsObject(t.entries[i].value, path[1..]);
      assert path[1..][..|path| - 2] == path[..|path| - 1][1..];
    }
  }

  /** Clearing a path takes the value away, leaves every path apart from it as it read, and keeps keys unique. */
  lemma ClearMeans(t: Tree, path: Path, other: Path)
    requires path != [] && UniqueKeys(t) && Apart(path, other)
    ensures UniqueKeys(Clear(t, path))
    ensures Get(Clear(t, path), path).None?
    ensures Get(Clear(t, path), other) == Get(t, other)
  {
    var up := path[..|path| - 1];
    var r := if Get(t, path).Some? then Remove(t, path) else t;
    if Get(t, path).Some? {
      RemoveKeepsKeysUnique(t, path);
      GetRemoved(t, path);
      GetRemovedApart(t, path, other);
    }
    PruneKeepsKeysUnique(r, up);
    GetPrunedApart(r, up, path);
    assert other <= up ==> other <= path;
    GetPrunedApart(r, up, other);
  }

  /** Where there was a value to clear, no ancestor on its path is left an empty object. */
  lemma ClearLeavesNoEmptyAncestor(t: Tree, path: Path, ancestor: Path)
    requires path != [] && UniqueKeys(t) && Get(t, path).Some?
    requires ancestor != [] && ancestor < path
    ensures Get(Clear(t, path), ancestor) != Some(Object([]))
  {
    RemoveKeepsKeysUnique(t, path);
    ParentIsObject(t, path);
    NoEmptyAncestor(Remove(t, path), path[..|path| - 1], ancestor);
  }
}
