// What the program reads from a config text: `JSON.parse` keeps the last of two entries with one key, where the editor
// looks for the first.
module ConfigRead {
  import opened Options
  import opened Json
  import opened ConfigTree

  /** A value as `JSON.parse` returns it: an object holds one value for a key. */
  datatype Value =
    | Plain(text: string)
    | Words(units: Units)
    | Items(items: seq<Value>)
    | Fields(fields: map<Units, Value>)

  function Parsed(t: Tree): Value
    decreases t, 1
  {
    match t
    case Atom(text) => Plain(text)
    case Text(units) => Words(units)
    case List(items) => Items(AllParsed(items))
    case Object(entries) => Fields(FieldsOf(entries))
  }

  function AllParsed(items: seq<Tree>): (r: seq<Value>)
    ensures |r| == |items|
    decreases items, 0
  {
    if items == [] then [] else [Parsed(items[0])] + AllParsed(items[1..])
  }

  /** Entry by entry, a later one writing over an earlier one with its key. */
  function FieldsOf(entries: seq<Entry>): (m: map<Units, Value>)
    decreases entries, 0
  {
    if entries == [] then map[]
    else
      var last := entries[|entries| - 1];
      FieldsOf(entries[..|entries| - 1])[last.key := Parsed(last.value)]
  }

  /** What the program reads at a path. */
  function Read(v: Value, path: Path): Option<Value>
    decreases |path|
  {
    if path == [] then Some(v)
    else if !v.Fields? || path[0] !in v.fields then None
    else Read(v.fields[path[0]], path[1..])
  }

  /** The value with another at the path: everything on the way made an object that is none. */
  function Put(v: Value, path: Path, given: Value): Value
    decreases |path|
  {
    if path == [] then given
    else
      var m := if v.Fields? then v.fields else map[];
      Fields(m[path[0] := Put(if path[0] in m then m[path[0]] else Fields(map[]), path[1..], given)])
  }

  /** The value without what is at the path. */
  function Drop(v: Value, path: Path): Value
    decreases |path|
  {
    if path == [] || !v.Fields? || path[0] !in v.fields then v
    else if |path| == 1 then Fields(v.fields - {path[0]})
    else Fields(v.fields[path[0] := Drop(v.fields[path[0]], path[1..])])
  }

  /** Without the objects left empty above, innermost first, until one is not empty. */
  function Tidy(v: Value, path: Path): Value
    decreases |path|
  {
    if path != [] && Read(v, path) == Some(Fields(map[])) then Tidy(Drop(v, path), path[..|path| - 1]) else v
  }

  function Without(v: Value, path: Path): Value
    requires path != []
  {
    Tidy(Drop(v, path), path[..|path| - 1])
  }

  // The last entry with a key

  function LastOf(entries: seq<Entry>, key: Units): (i: nat)
    ensures i <= |entries|
    ensures i < |entries| ==> entries[i].key == key
    ensures forall k :: i < k < |entries| ==> entries[k].key != key
    ensures i == |entries| ==> forall k :: 0 <= k < |entries| ==> entries[k].key != key
  {
    if entries == [] then 0
    else
      var i := LastOf(entries[1..], key);
      if i < |entries| - 1 then i + 1 else if entries[0].key == key then 0 else |entries|
  }

  lemma {:induction false} FieldsAt(entries: seq<Entry>, key: Units)
    ensures var i := LastOf(entries, key);
            if i < |entries| then key in FieldsOf(entries) && FieldsOf(entries)[key] == Parsed(entries[i].value)
            else key !in FieldsOf(entries)
    decreases |entries|
  {
    if entries != [] && entries[|entries| - 1].key != key {
      FieldsAt(entries[..|entries| - 1], key);
      LastIs(entries[..|entries| - 1], key, LastBefore(entries, key));
    }
  }

  function LastBefore(entries: seq<Entry>, key: Units): (i: nat)
    requires entries != []
  {
    if LastOf(entries, key) == |entries| then |entries| - 1 else LastOf(entries, key)
  }

  lemma LastIs(entries: seq<Entry>, key: Units, i: nat)
    requires i <= |entries|
    requires i < |entries| ==> entries[i].key == key
    requires forall k :: i < k < |entries| ==> entries[k].key != key
    requires i == |entries| ==> forall k :: 0 <= k < |entries| ==> entries[k].key != key
    ensures LastOf(entries, key) == i
  {
  }

  lemma FirstBeforeLast(entries: seq<Entry>, key: Units)
    ensures IndexOf(entries, key) == |entries| <==> LastOf(entries, key) == |entries|
    ensures IndexOf(entries, key) <= LastOf(entries, key)
  {
  }

  // Where the two readings agree

  /** No key on the way is there twice, in the objects the editor goes through: what a caller can check before. */
  predicate Single(t: Tree, path: Path)
    decreases |path|
  {
    path == [] || !t.Object? ||
    var i := IndexOf(t.entries, path[0]);
    i == |t.entries| || (LastOf(t.entries, path[0]) == i && Single(t.entries[i].value, path[1..]))
  }

  lemma {:induction false} UniqueIsSingle(t: Tree, path: Path)
    requires UniqueKeys(t)
    ensures Single(t, path)
    decreases |path|
  {
    if path != [] && t.Object? {
      var i := IndexOf(t.entries, path[0]);
      FirstBeforeLast(t.entries, path[0]);
      if i < |t.entries| {
        UniqueIsSingle(t.entries[i].value, path[1..]);
      }
    }
  }

  /** What the editor finds at a path is what the program reads there, where no key on the way is doubled. */
  lemma {:induction false} ReadsAlike(t: Tree, path: Path)
    requires Single(t, path)
    ensures Read(Parsed(t), path) == if Get(t, path).Some? then Some(Parsed(Get(t, path).value)) else None
    decreases |path|
  {
    if path != [] && t.Object? {
      var i := IndexOf(t.entries, path[0]);
      FirstBeforeLast(t.entries, path[0]);
      FieldsAt(t.entries, path[0]);
      if i < |t.entries| {
        ReadsAlike(t.entries[i].value, path[1..]);
      }
    }
  }

  // Setting

  /** The value written is the one the program reads: no first entry written to or into has another after it. */
  predicate Lands(t: Tree, path: Path)
    decreases |path|
  {
    path == [] || !t.Object? ||
    var i := IndexOf(t.entries, path[0]);
    i == |t.entries| || (|path| > 1 && !t.entries[i].value.Object?)
    || (LastOf(t.entries, path[0]) == i && Lands(t.entries[i].value, path[1..]))
  }

  lemma {:induction false} SingleLands(t: Tree, path: Path)
    requires Single(t, path)
    ensures Lands(t, path)
    decreases |path|
  {
    if path != [] && t.Object? && IndexOf(t.entries, path[0]) < |t.entries| {
      SingleLands(t.entries[IndexOf(t.entries, path[0])].value, path[1..]);
    }
  }

  /** One more entry: read before any other with its key. */
  lemma FieldsPushed(entries: seq<Entry>, e: Entry)
    ensures FieldsOf(entries + [e]) == FieldsOf(entries)[e.key := Parsed(e.value)]
  {
    assert (entries + [e])[..|entries|] == entries;
  }

  lemma ReplacedAt(entries: seq<Entry>, i: nat, value: Tree, key: Units)
    requires i < |entries|
    ensures var was, after := FieldsOf(entries), FieldsOf(entries[i := Entry(entries[i].key, value)]);
            && (key in after <==> key in was)
            && (key in was ==> after[key] == if LastOf(entries, key) == i then Parsed(value) else was[key])
  {
    var all := entries[i := Entry(entries[i].key, value)];
    LastIs(all, key, LastOf(entries, key));
    FieldsAt(all, key);
    FieldsAt(entries, key);
    hide FieldsOf;
    hide Parsed;
  }

  lemma FieldsReplaced(entries: seq<Entry>, i: nat, value: Tree)
    requires i < |entries|
    ensures var key, after := entries[i].key, FieldsOf(entries[i := Entry(entries[i].key, value)]);
            after == if LastOf(entries, key) == i then FieldsOf(entries)[key := Parsed(value)] else FieldsOf(entries)
  {
    hide FieldsOf;
    hide Parsed;
    var own := entries[i].key;
    var was, after := FieldsOf(entries), FieldsOf(entries[i := Entry(own, value)]);
    forall key ensures key in after <==> key in was
               ensures key in was ==> after[key] == if LastOf(entries, key) == i then Parsed(value) else was[key]
               ensures LastOf(entries, key) == i ==> key == own {
      ReplacedAt(entries, i, value, key);
    }
    FieldsAt(entries, own);
    hide LastOf;
  }

  lemma {:induction false} NestParsed(path: Path, v: Tree)
    ensures Parsed(Nest(path, v)) == Put(Fields(map[]), path, Parsed(v))
    decreases |path|
  {
    if path != [] {
      NestParsed(path[1..], v);
      FieldsPushed([], Entry(path[0], Nest(path[1..], v)));
      assert [] + [Entry(path[0], Nest(path[1..], v))] == [Entry(path[0], Nest(path[1..], v))];
    }
  }

  lemma {:induction false} ReadPut(v: Value, path: Path, given: Value)
    ensures Read(Put(v, path, given), path) == Some(given)
    decreases |path|
  {
    if path != [] {
      var m := if v.Fields? then v.fields else map[];
      ReadPut(if path[0] in m then m[path[0]] else Fields(map[]), path[1..], given);
    }
  }

  /** What was set is what the program reads there if and only if it lands; otherwise it reads what it read before. */
  lemma {:induction false} ReadSet(t: Tree, path: Path, v: Tree)
    requires t.Object? && path != []
    ensures Read(Parsed(Set(t, path, v)), path) == if Lands(t, path) then Some(Parsed(v)) else Read(Parsed(t), path)
    decreases |path|
  {
    hide FieldsOf;
    hide LastOf;
    hide IndexOf;
    var i := IndexOf(t.entries, path[0]);
    FirstBeforeLast(t.entries, path[0]);
    FieldsAt(t.entries, path[0]);
    if i == |t.entries| || (|path| > 1 && !t.entries[i].value.Object?) {
      FieldsPushed(t.entries, Entry(path[0], Nest(path[1..], v)));
      NestParsed(path[1..], v);
      ReadPut(Fields(map[]), path[1..], Parsed(v));
    } else if |path| == 1 {
      FieldsReplaced(t.entries, i, v);
    } else {
      ReadSet(t.entries[i].value, path[1..], v);
      FieldsReplaced(t.entries, i, Set(t.entries[i].value, path[1..], v));
    }
  }

  /** Where no key on the way is doubled, the program reads the same value with the path put, and nothing else new. */
  lemma {:induction false} SetPuts(t: Tree, path: Path, v: Tree)
    requires t.Object? && path != [] && Single(t, path)
    ensures Parsed(Set(t, path, v)) == Put(Parsed(t), path, Parsed(v))
    decreases |path|
  {
    hide FieldsOf;
    hide LastOf;
    hide IndexOf;
    var i := IndexOf(t.entries, path[0]);
    FirstBeforeLast(t.entries, path[0]);
    FieldsAt(t.entries, path[0]);
    if i == |t.entries| || (|path| > 1 && !t.entries[i].value.Object?) {
      FieldsPushed(t.entries, Entry(path[0], Nest(path[1..], v)));
      NestParsed(path[1..], v);
      if i < |t.entries| {
        PutOnPlain(Parsed(t.entries[i].value), path[1..], Parsed(v));
      }
    } else if |path| == 1 {
      FieldsReplaced(t.entries, i, v);
    } else {
      SetPuts(t.entries[i].value, path[1..], v);
      FieldsReplaced(t.entries, i, Set(t.entries[i].value, path[1..], v));
    }
  }

  lemma PutOnPlain(v: Value, path: Path, given: Value)
    requires path != [] && !v.Fields?
    ensures Put(v, path, given) == Put(Fields(map[]), path, given)
  {
  }

  lemma {:induction false} ReadPutApart(v: Value, path: Path, given: Value, other: Path)
    requires Apart(path, other)
    ensures Read(Put(v, path, given), other) == Read(v, other)
    decreases |path|
  {
    var m := if v.Fields? then v.fields else map[];
    if path[0] == other[0] {
      ApartTail(path, other);
      ReadPutApart(if path[0] in m then m[path[0]] else Fields(map[]), path[1..], given, other[1..]);
    }
  }

  /** A set that does not land changes nothing the program reads. */
  lemma {:induction false} SetUnread(t: Tree, path: Path, v: Tree)
    requires t.Object? && path != [] && !Lands(t, path)
    ensures Parsed(Set(t, path, v)) == Parsed(t)
    decreases |path|
  {
    hide FieldsOf;
    hide LastOf;
    hide IndexOf;
    var i := IndexOf(t.entries, path[0]);
    FieldsAt(t.entries, path[0]);
    if |path| == 1 {
      FieldsReplaced(t.entries, i, v);
    } else {
      FieldsReplaced(t.entries, i, Set(t.entries[i].value, path[1..], v));
      if LastOf(t.entries, path[0]) == i {
        SetUnread(t.entries[i].value, path[1..], v);
      }
    }
  }

  /** The set goes beside a value that is no object, and over all that was read under its key. */
  predicate Covers(t: Tree, path: Path, other: Path)
    decreases |path|
  {
    path != [] && other != [] && path[0] == other[0] && t.Object? &&
    var i := IndexOf(t.entries, path[0]);
    i < |t.entries| && |path| > 1
    && (!t.entries[i].value.Object?
        || (LastOf(t.entries, path[0]) == i && Covers(t.entries[i].value, path[1..], other[1..])))
  }

  lemma {:induction false} ReadNestApart(path: Path, v: Tree, other: Path)
    requires Apart(path, other)
    ensures Read(Parsed(Nest(path, v)), other).None?
  {
    NestParsed(path, v);
    ReadPutApart(Fields(map[]), path, Parsed(v), other);
  }

  /** What the program reads off the path: what it read before, unless the set covers it, and then nothing. */
  lemma {:induction false} ReadSetApart(t: Tree, path: Path, v: Tree, other: Path)
    requires t.Object? && Apart(path, other)
    ensures Read(Parsed(Set(t, path, v)), other) == if Covers(t, path, other) then None else Read(Parsed(t), other)
    decreases |path|
  {
    hide FieldsOf;
    hide LastOf;
    hide IndexOf;
    hide Lands;
    hide Single;
    var i := IndexOf(t.entries, path[0]);
    FirstBeforeLast(t.entries, path[0]);
    FieldsAt(t.entries, path[0]);
    if path[0] == other[0] {
      ApartTail(path, other);
    }
    if i == |t.entries| || (|path| > 1 && !t.entries[i].value.Object?) {
      FieldsPushed(t.entries, Entry(path[0], Nest(path[1..], v)));
      if path[0] == other[0] {
        ReadNestApart(path[1..], v, other[1..]);
      }
    } else if |path| == 1 {
      FieldsReplaced(t.entries, i, v);
    } else {
      FieldsReplaced(t.entries, i, Set(t.entries[i].value, path[1..], v));
      if path[0] == other[0] {
        ReadSetApart(t.entries[i].value, path[1..], v, other[1..]);
      }
    }
  }

  // Clearing

  lemma LastSkipped(entries: seq<Entry>, rest: seq<Entry>, i: nat, key: Units)
    requires i < |entries| && |rest| == |entries| - 1
    requires forall k :: 0 <= k < i ==> rest[k] == entries[k] && entries[k].key != entries[i].key
    requires forall k :: i <= k < |rest| ==> rest[k] == entries[k + 1]
    ensures var n := LastOf(entries, key); LastOf(rest, key) == if n > i then n - 1 else if n == i then |rest| else n
  {
    var n := LastOf(entries, key);
    var m := if n > i then n - 1 else if n == i then |rest| else n;
    forall k | m < k < |rest| ensures rest[k].key != key {
      assert rest[k] == entries[if k < i then k else k + 1];
    }
    if m == |rest| {
      forall k | 0 <= k < |rest| ensures rest[k].key != key {
        assert rest[k] == entries[if k < i then k else k + 1];
      }
    }
    LastIs(rest, key, m);
  }

  function Left(entries: seq<Entry>, i: nat): (r: seq<Entry>)
    requires i < |entries|
    ensures |r| == |entries| - 1
    ensures forall k :: 0 <= k < i ==> r[k] == entries[k]
    ensures forall k :: i <= k < |r| ==> r[k] == entries[k + 1]
  {
    entries[..i] + entries[i + 1..]
  }

  lemma LastLeft(entries: seq<Entry>, i: nat, key: Units)
    requires i < |entries| && i == IndexOf(entries, entries[i].key)
    ensures var n := LastOf(entries, key);
            LastOf(Left(entries, i), key) == if n > i then n - 1 else if n == i then |entries| - 1 else n
    ensures var n := LastOf(entries, key);
            n != i && n < |entries| ==> Left(entries, i)[if n > i then n - 1 else n] == entries[n]
  {
    hide LastOf;
    hide Left;
    LastSkipped(entries, Left(entries, i), i, key);
  }

  lemma RemovedAt(entries: seq<Entry>, i: nat, key: Units)
    requires i < |entries| && i == IndexOf(entries, entries[i].key)
    ensures var was, after := FieldsOf(entries), FieldsOf(Left(entries, i));
            if LastOf(entries, key) == i then key !in after
            else (key in after <==> key in was) && (key in was ==> after[key] == was[key])
  {
    hide FieldsOf;
    hide Parsed;
    hide LastOf;
    hide IndexOf;
    hide Left;
    LastLeft(entries, i, key);
    FieldsAt(Left(entries, i), key);
    FieldsAt(entries, key);
  }

  lemma FieldsRemoved(entries: seq<Entry>, i: nat)
    requires i < |entries| && i == IndexOf(entries, entries[i].key)
    ensures var key, after := entries[i].key, FieldsOf(Left(entries, i));
            after == if LastOf(entries, key) == i then FieldsOf(entries) - {key} else FieldsOf(entries)
  {
    hide FieldsOf;
    hide IndexOf;
    hide LastOf;
    hide Left;
    var own := entries[i].key;
    var was, after := FieldsOf(entries), FieldsOf(Left(entries, i));
    forall key ensures LastOf(entries, key) == i ==> key == own && key !in after
               ensures LastOf(entries, key) != i ==>
                         (key in after <==> key in was) && (key in was ==> after[key] == was[key]) {
      RemovedAt(entries, i, key);
    }
    assert after.Keys == if LastOf(entries, own) == i then was.Keys - {own} else was.Keys;
  }

  lemma {:induction false} DropNothing(v: Value, path: Path)
    requires path != [] && Read(v, path).None?
    ensures Drop(v, path) == v
    decreases |path|
  {
    if v.Fields? && path[0] in v.fields {
      DropNothing(v.fields[path[0]], path[1..]);
    }
  }

  /** Removing what the editor finds drops it from what the program reads, or is not seen where a key is doubled. */
  lemma {:induction false} RemoveReads(t: Tree, path: Path)
    requires path != [] && Get(t, path).Some?
    ensures Parsed(Remove(t, path)) == if Single(t, path) then Drop(Parsed(t), path) else Parsed(t)
    decreases |path|
  {
    hide FieldsOf;
    hide LastOf;
    hide IndexOf;
    var i := IndexOf(t.entries, path[0]);
    FieldsAt(t.entries, path[0]);
    if |path| == 1 {
      FieldsRemoved(t.entries, i);
    } else {
      RemoveReads(t.entries[i].value, path[1..]);
      FieldsReplaced(t.entries, i, Remove(t.entries[i].value, path[1..]));
    }
  }

  lemma {:induction false} SingleUp(t: Tree, path: Path, up: Path)
    requires Single(t, path) && up <= path
    ensures Single(t, up)
    decreases |up|
  {
    if up != [] && t.Object? && IndexOf(t.entries, up[0]) < |t.entries| {
      assert up[0] == path[0];
      SingleUp(t.entries[IndexOf(t.entries, up[0])].value, path[1..], up[1..]);
    }
  }

  lemma LastKept(entries: seq<Entry>, i: nat, value: Tree, key: Units)
    requires i < |entries|
    ensures var after := entries[i := Entry(entries[i].key, value)];
            IndexOf(after, key) == IndexOf(entries, key) && LastOf(after, key) == LastOf(entries, key)
  {
    var after := entries[i := Entry(entries[i].key, value)];
    IndexOfIs(after, key, IndexOf(entries, key));
    LastIs(after, key, LastOf(entries, key));
  }

  /** After a removal the way up has no key doubled, as before; or has one; or ends in an object that is not empty. */
  lemma {:induction false} RemovedWay(t: Tree, path: Path)
    requires path != [] && Get(t, path).Some?
    ensures var r, up := Remove(t, path), path[..|path| - 1];
            if Single(t, path) then Single(r, up) else Get(r, up) == Some(Object([])) ==> !Single(r, up)
    decreases |path|
  {
    var i, r, up := IndexOf(t.entries, path[0]), Remove(t, path), path[..|path| - 1];
    if |path| > 1 {
      RemovedWay(t.entries[i].value, path[1..]);
      LastKept(t.entries, i, Remove(t.entries[i].value, path[1..]), path[0]);
      assert path[1..][..|path| - 2] == up[1..];
    } else {
      FirstBeforeLast(t.entries, path[0]);
      assert |r.entries| == |t.entries| - 1 && up == [];
      assert Single(t, path) || |t.entries| > 1;
      assert Get(r, up) == Some(r);
    }
  }

  lemma {:induction false} DoubledAbove(t: Tree, path: Path)
    requires path != [] && !Single(t, path) && Get(t, path).None?
    ensures !Single(t, path[..|path| - 1])
    decreases |path|
  {
    var i, up := IndexOf(t.entries, path[0]), path[..|path| - 1];
    if |path| > 1 && LastOf(t.entries, path[0]) == i {
      DoubledAbove(t.entries[i].value, path[1..]);
      assert path[1..][..|path| - 2] == up[1..];
    }
  }

  lemma EmptyRead(t: Tree)
    ensures Parsed(t) == Fields(map[]) <==> t == Object([])
  {
    if t.Object? && t.entries != [] {
      assert t.entries[|t.entries| - 1].key in FieldsOf(t.entries);
    }
  }

  lemma {:induction false} PruneReads(t: Tree, path: Path)
    ensures Parsed(Prune(t, path)) == if Single(t, path) then Tidy(Parsed(t), path) else Parsed(t)
    decreases |path|
  {
    if Single(t, path) {
      ReadsAlike(t, path);
      if Get(t, path).Some? {
        EmptyRead(Get(t, path).value);
      }
    }
    if path != [] && Get(t, path) == Some(Object([])) {
      var r, up := Remove(t, path), path[..|path| - 1];
      RemoveReads(t, path);
      RemovedWay(t, path);
      PruneReads(r, up);
    }
  }

  /** Clearing clears what the program reads if no key on the way is doubled, and otherwise changes nothing it reads. */
  lemma ClearReads(t: Tree, path: Path)
    requires path != []
    ensures Parsed(Clear(t, path)) == if Single(t, path) then Without(Parsed(t), path) else Parsed(t)
  {
    var up := path[..|path| - 1];
    if Get(t, path).Some? {
      RemoveReads(t, path);
      RemovedWay(t, path);
      PruneReads(Remove(t, path), up);
    } else if Single(t, path) {
      ReadsAlike(t, path);
      DropNothing(Parsed(t), path);
      SingleUp(t, path, up);
      PruneReads(t, up);
    } else {
      DoubledAbove(t, path);
      PruneReads(t, up);
    }
  }

  lemma {:induction false} DropGone(v: Value, path: Path)
    requires path != []
    ensures Read(Drop(v, path), path).None?
    decreases |path|
  {
    if v.Fields? && path[0] in v.fields && |path| > 1 {
      DropGone(v.fields[path[0]], path[1..]);
    }
  }

  lemma {:induction false} ReadThrough(v: Value, p: Path, q: Path)
    requires p <= q
    ensures Read(v, q) == if Read(v, p).Some? then Read(Read(v, p).value, q[|p|..]) else None
    decreases |p|
  {
    if p != [] {
      assert p[0] == q[0];
      if v.Fields? && p[0] in v.fields {
        ReadThrough(v.fields[p[0]], p[1..], q[1..]);
        assert q[1..][|p| - 1..] == q[|p|..];
      }
    } else {
      assert q[0..] == q;
    }
  }

  lemma {:induction false} ReadDropApart(v: Value, path: Path, other: Path)
    requires Apart(path, other)
    ensures Read(Drop(v, path), other) == Read(v, other)
    decreases |path|
  {
    if v.Fields? && path[0] in v.fields && path[0] == other[0] {
      ApartTail(path, other);
      ReadDropApart(v.fields[path[0]], path[1..], other[1..]);
    }
  }

  lemma {:induction false} ReadTidy(v: Value, path: Path, other: Path)
    requires !(other <= path)
    ensures Read(Tidy(v, path), other) == Read(v, other)
    decreases |path|
  {
    if path != [] && Read(v, path) == Some(Fields(map[])) {
      var up := path[..|path| - 1];
      assert other <= up ==> other <= path;
      ReadTidy(Drop(v, path), up, other);
      if path <= other {
        ReadThrough(v, path, other);
        DropGone(v, path);
        ReadThrough(Drop(v, path), path, other);
      } else {
        ReadDropApart(v, path, other);
      }
    }
  }

  /** What is read without a path: nothing at the path, and every path apart from it as it was. */
  lemma WithoutMeans(v: Value, path: Path, other: Path)
    requires path != [] && Apart(path, other)
    ensures Read(Without(v, path), path).None?
    ensures Read(Without(v, path), other) == Read(v, other)
  {
    var up := path[..|path| - 1];
    DropGone(v, path);
    ReadTidy(Drop(v, path), up, path);
    assert other <= up ==> other <= path;
    ReadTidy(Drop(v, path), up, other);
    ReadDropApart(v, path, other);
  }

  // Where the two readings part

  /**
   * `{"a": 1}` with `a.b` set to 2: the key `a` is there twice, the program reads 2 and no longer 1, and the editor
   * finds nothing at `a.b`, so that clearing it leaves the 2 where it is.
   */
  lemma SetBesideScalar()
    ensures var t, path := Object([Entry([97], Atom("1"))]), [[97], [98]];
            var after := Set(t, path, Atom("2"));
            && UniqueKeys(t) && !UniqueKeys(after)
            && Read(Parsed(after), path) == Some(Plain("2")) && Read(Parsed(after), [[97]]) != Read(Parsed(t), [[97]])
            && Get(after, path).None? && Clear(after, path) == after
  {
    var t, path := Object([Entry([97], Atom("1"))]), [[97], [98]];
    var after := Set(t, path, Atom("2"));
    assert IndexOf(t.entries, [97]) == 0 && !Open(t, path);
    GetSet(t, path, Atom("2"));
    SetKeepsKeysUnique(t, path, Atom("2"));
    ReadSet(t, path, Atom("2"));
    assert after == Object(t.entries + [Entry([97], Nest([[98]], Atom("2")))]);
    FieldsPushed(t.entries, Entry([97], Nest([[98]], Atom("2"))));
    FieldsPushed([], t.entries[0]);
    assert [] + [t.entries[0]] == t.entries;
    assert Parsed(t).fields[[97]] == Plain("1") && Read(Parsed(t), [[97]]) == Some(Plain("1"));
    ReadThrough(Parsed(after), [[97]], path);
    assert Get(after, [[97]]) == Some(Atom("1"));
    assert path[..1] == [[97]];
  }

  /** `{"a": 1}` with `a.b` set to 2 and then `a.c` to 3: a third `a`, and the program reads nothing at `a.b`. */
  lemma TwoBesideScalar()
    ensures var t, one, two := Object([Entry([97], Atom("1"))]), [[97], [98]], [[97], [99]];
            var after := Set(Set(t, one, Atom("2")), two, Atom("3"));
            Read(Parsed(after), two) == Some(Plain("3")) && Read(Parsed(after), one).None?
  {
    var t, one, two := Object([Entry([97], Atom("1"))]), [[97], [98]], [[97], [99]];
    var once := Set(t, one, Atom("2"));
    assert once == Object(t.entries + [Entry([97], Nest([[98]], Atom("2")))]);
    assert IndexOf(once.entries, [97]) == 0;
    ReadSet(once, two, Atom("3"));
    ReadSetApart(once, two, Atom("3"), one);
  }

  /** `{"a": 1, "a": 2}` with `a` set to 3: the first is written over, and the program still reads 2. */
  lemma SetUnderDouble()
    ensures var t := Object([Entry([97], Atom("1")), Entry([97], Atom("2"))]);
            Open(t, [[97]]) && Read(Parsed(Set(t, [[97]], Atom("3"))), [[97]]) == Some(Plain("2"))
  {
    var t := Object([Entry([97], Atom("1")), Entry([97], Atom("2"))]);
    LastIs(t.entries, [97], 1);
    SetUnread(t, [[97]], Atom("3"));
    FieldsAt(t.entries, [97]);
    assert Read(Parsed(t), [[97]]) == Read(Parsed(t).fields[[97]], []);
  }
}
