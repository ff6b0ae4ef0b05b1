/** State paths of the host: replacing a subtree, and the list operations. */
module Paths {
  import opened Integers
  import opened Wire

  /** `str::split('.')`: never empty, and the inverse of joining with dots. */
  function Split(path: string): (segments: seq<string>)
    ensures segments != []
  {
    if path == "" then [""]
    else
      var rest := Split(path[1..]);
      if path[0] == '.' then [""] + rest else [[path[0]] + rest[0]] + rest[1..]
  }

  lemma {:induction false} SplitNoDot(s: string)
    requires '.' !in s
    ensures Split(s) == [s]
  {
    if s == "" {
    } else {
      SplitNoDot(s[1..]);
      assert [s[0]] + s[1..] == s;
    }
  }

  lemma {:induction false} SplitAtDot(first: string, rest: string)
    requires '.' !in first
    ensures Split(first + "." + rest) == [first] + Split(rest)
  {
    var path := first + "." + rest;
    if first == "" {
      assert path[1..] == rest;
    } else {
      assert path[1..] == first[1..] + "." + rest;
      SplitAtDot(first[1..], rest);
      assert [first[0]] + first[1..] == first;
    }
  }

  function Get(state: Json, path: seq<string>): Option<Json> {
    if path == [] then Some(state)
    else if state.Obj? && path[0] in state.members then Get(state.members[path[0]], path[1..])
    else None
  }

  const EMPTY_OBJECT := Obj(map[])

  /** The child an insertion descends into: the existing one, or a fresh empty object. */
  function ChildOr(state: Json, name: string): Json
    requires state.Obj?
  {
    if name in state.members then state.members[name] else EMPTY_OBJECT
  }

  /** The tree with `value` at `path`; parents that are missing are created, others must be objects. */
  function Replaced(state: Json, path: seq<string>, value: Json): Option<Json>
    decreases |path|
  {
    if path == [] then Some(value)
    else if !state.Obj? then None
    else
      var child := Replaced(ChildOr(state, path[0]), path[1..], value);
      if child.None? then None else Some(Obj(state.members[path[0] := child.value]))
  }

  /** One step of the in-place descent: make sure the child exists. */
  lemma {:induction false} CreateParent(state: Json, path: seq<string>, i: nat, value: Json)
    requires i < |path| && Get(state, path[..i]).Some? && Get(state, path[..i]).value.Obj?
    ensures var here := Get(state, path[..i]).value;
            var grown := Replaced(state, path[..i], Obj(here.members[path[i] := ChildOr(here, path[i])]));
            && grown.Some?
            && Get(grown.value, path[..i + 1]) == Some(ChildOr(here, path[i]))
            && Replaced(grown.value, path, value) == Replaced(state, path, value)
            && (path[i] in here.members ==> grown.value == state)
    decreases i
  {
    var here := Get(state, path[..i]).value;
    var cell := Obj(here.members[path[i] := ChildOr(here, path[i])]);
    assert path[..i + 1][0] == path[0] && path[..i + 1][1..] == path[1..][..i];
    if i == 0 {
      assert path[..0] == [] && path[..1][1..] == [];
      assert path[i] in here.members ==> here.members[path[i] := here.members[path[i]]] == here.members;
      var child := ChildOr(state, path[0]);
      var after := Replaced(child, path[1..], value);
      assert after.Some? ==>
          state.members[path[0] := child][path[0] := after.value] == state.members[path[0] := after.value];
    } else {
      var child := state.members[path[0]];
      assert path[..i][1..] == path[1..][..i - 1];
      CreateParent(child, path[1..], i - 1, value);
      var grown := Replaced(child, path[1..][..i - 1], cell);
      assert Replaced(state, path[..i], cell) == Some(Obj(state.members[path[0] := grown.value]));
      var after := Replaced(child, path[1..], value);
      assert after.Some? ==>
          state.members[path[0] := grown.value][path[0] := after.value] == state.members[path[0] := after.value];
      assert grown.value == child ==> state.members[path[0] := grown.value] == state.members;
    }
  }

  lemma {:induction false} PutLast(state: Json, path: seq<string>, value: Json)
    requires path != [] && Get(state, path[..|path| - 1]).Some? && Get(state, path[..|path| - 1]).value.Obj?
    ensures var here := Get(state, path[..|path| - 1]).value;
            && Replaced(state, path, value).Some?
            && Replaced(state, path[..|path| - 1], Obj(here.members[path[|path| - 1] := value])) ==
               Replaced(state, path, value)
  {
    if |path| > 1 {
      assert path[..|path| - 1][1..] == path[1..][..|path| - 2];
      PutLast(state.members[path[0]], path[1..], value);
    }
  }

  lemma {:induction false} StuckPut(state: Json, path: seq<string>, i: nat, value: Json)
    requires i < |path| && Get(state, path[..i]).Some? && !Get(state, path[..i]).value.Obj?
    ensures Replaced(state, path, value).None?
  {
    if i > 0 {
      assert path[..i][1..] == path[1..][..i - 1];
      StuckPut(state.members[path[0]], path[1..], i - 1, value);
    }
  }

  /**
   * The loop that walks a mutable cursor down the tree and creates missing parents on the way.
   * The cursor is the prefix `path[..i]`. A failure leaves the tree as it was: parents are only
   * created below an object, and nothing below a fresh one can fail.
   */
  method ReplacePath(state: Json, path: seq<string>, value: Json) returns (ok: bool, result: Json)
    requires path != []
    ensures ok == Replaced(state, path, value).Some?
    ensures result == if ok then Replaced(state, path, value).value else state
  {
    result := state;
    var i := 0;
    assert path[..0] == [];
    while i < |path|
      invariant 0 <= i < |path|
      invariant Get(result, path[..i]).Some?
      invariant result == state || Get(result, path[..i]) == Some(EMPTY_OBJECT)
      invariant Replaced(result, path, value) == Replaced(state, path, value)
      decreases |path| - i
    {
      var current := Get(result, path[..i]).value;
      if !current.Obj? {
        StuckPut(result, path, i, value);
        return false, result;
      }
      if i + 1 == |path| {
        PutLast(result, path, value);
        result := Replaced(result, path[..i], Obj(current.members[path[i] := value])).value;
        return true, result;
      }
      CreateParent(result, path, i, value);
      result := Replaced(result, path[..i], Obj(current.members[path[i] := ChildOr(current, path[i])])).value;
      i := i + 1;
    }
    return false, result;
  }

  // ---------- laws ----------

  /** Reading back a replaced path gives the value. */
  lemma {:induction false} ReplaceThenGet(state: Json, path: seq<string>, value: Json)
    requires Replaced(state, path, value).Some?
    ensures Get(Replaced(state, path, value).value, path) == Some(value)
    decreases |path|
  {
    if path == [] {
    } else {
      ReplaceThenGet(ChildOr(state, path[0]), path[1..], value);
    }
  }

  /** Writing back what is there changes nothing. */
  lemma {:induction false} GetThenReplace(state: Json, path: seq<string>)
    requires Get(state, path).Some?
    ensures Replaced(state, path, Get(state, path).value) == Some(state)
    decreases |path|
  {
    if path == [] {
    } else {
      GetThenReplace(state.members[path[0]], path[1..]);
      assert state.members[path[0] := state.members[path[0]]] == state.members;
    }
  }

  /** The second of two writes to a path wins. */
  lemma {:induction false} ReplaceTwice(state: Json, path: seq<string>, v: Json, w: Json)
    requires Replaced(state, path, v).Some?
    ensures Replaced(Replaced(state, path, v).value, path, w) == Replaced(state, path, w)
    decreases |path|
  {
    if path == [] {
    } else {
      var child := ChildOr(state, path[0]);
      ReplaceTwice(child, path[1..], v, w);
      ReplaceAnyValue(child, path[1..], v, w);
      var once := Replaced(child, path[1..], v).value;
      var twice := Replaced(child, path[1..], w).value;
      assert state.members[path[0] := once][path[0] := twice] == state.members[path[0] := twice];
    }
  }

  /** Whether a write succeeds does not depend on the value written. */
  lemma {:induction false} ReplaceAnyValue(state: Json, path: seq<string>, v: Json, w: Json)
    ensures Replaced(state, path, v).Some? == Replaced(state, path, w).Some?
    decreases |path|
  {
    if path != [] && state.Obj? {
      ReplaceAnyValue(ChildOr(state, path[0]), path[1..], v, w);
    }
  }

  /** Two paths part at some segment: neither is a prefix of the other. */
  predicate Apart(p: seq<string>, q: seq<string>) {
    p != [] && q != [] && (p[0] != q[0] || Apart(p[1..], q[1..]))
  }

  lemma {:induction false} ApartIffNoPrefix(p: seq<string>, q: seq<string>)
    ensures Apart(p, q) <==> !(p <= q) && !(q <= p)
  {
    if p != [] && q != [] {
      ApartIffNoPrefix(p[1..], q[1..]);
      if p[0] == q[0] {
        PrefixTail(p, q);
        PrefixTail(q, p);
      }
    }
  }

  lemma PrefixTail(p: seq<string>, q: seq<string>)
    requires p != [] && q != [] && p[0] == q[0]
    ensures p <= q <==> p[1..] <= q[1..]
  {
    if p[1..] <= q[1..] {
      assert forall i :: 0 <= i < |p| ==> p[i] == (if i == 0 then q[0] else q[1..][i - 1]);
    }
  }

  /** A write leaves what every path apart from it reads, present or absent, as it was. */
  lemma {:induction false} ReplaceElsewhere(state: Json, path: seq<string>, other: seq<string>, value: Json)
    requires Replaced(state, path, value).Some? && Apart(path, other)
    ensures Get(Replaced(state, path, value).value, other) == Get(state, other)
    decreases |path|
  {
    if path[0] == other[0] {
      ReplaceElsewhere(ChildOr(state, path[0]), path[1..], other[1..], value);
    }
  }

  /** A write fails exactly when a proper prefix of the path resolves to something that is not an object. */
  lemma {:induction false} ReplaceFailsIff(state: Json, path: seq<string>, value: Json)
    ensures Replaced(state, path, value).None? <==>
            exists i :: 0 <= i < |path| && Get(state, path[..i]).Some? && !Get(state, path[..i]).value.Obj?
  {
    forall i | 0 <= i < |path| && Get(state, path[..i]).Some? && !Get(state, path[..i]).value.Obj?
      ensures Replaced(state, path, value).None?
    {
      StuckPut(state, path, i, value);
    }
    if Replaced(state, path, value).None? {
      var i := FailurePoint(state, path, value);
    }
  }

  lemma {:induction false} FailurePoint(state: Json, path: seq<string>, value: Json) returns (i: nat)
    requires Replaced(state, path, value).None?
    ensures i < |path| && Get(state, path[..i]).Some? && !Get(state, path[..i]).value.Obj?
    decreases |path|
  {
    if !state.Obj? {
      i := 0;
      assert path[..0] == [];
    } else {
      var j := FailurePoint(ChildOr(state, path[0]), path[1..], value);
      i := j + 1;
      assert path[..i][0] == path[0] && path[..i][1..] == path[1..][..j];
    }
  }

  // ---------- lists ----------

  /** The element operations, on the list itself; `None` when the index is out of range. */
  function ListEdited(items: seq<Json>, kind: Kind, index: nat, value: Json): Option<seq<Json>> {
    if kind == ListInsert && index <= |items| then Some(items[..index] + [value] + items[index..])
    else if kind == ListUpdate && index < |items| then Some(items[index := value])
    else if kind == ListRemove && index < |items| then Some(items[..index] + items[index + 1..])
    else None
  }

  /** A list operation on the list found at `path`. */
  function ListApplied(state: Json, path: seq<string>, kind: Kind, index: nat, value: Json): Option<Json> {
    var target := Get(state, path);
    if target.None? || !target.value.Arr? then None
    else
      var items := ListEdited(target.value.items, kind, index, value);
      if items.None? then None else Replaced(state, path, Arr(items.value))
  }

  /** A list edit at an existing list always has somewhere to go. */
  lemma {:induction false} ExistingPathReplaces(state: Json, path: seq<string>, value: Json)
    requires Get(state, path).Some?
    ensures Replaced(state, path, value).Some?
    decreases |path|
  {
    if path == [] {
    } else {
      ExistingPathReplaces(state.members[path[0]], path[1..], value);
    }
  }

  /** Removing what was inserted restores the whole state. */
  lemma InsertThenRemove(state: Json, path: seq<string>, index: nat, value: Json, ignored: Json)
    requires ListApplied(state, path, ListInsert, index, value).Some?
    ensures ListApplied(ListApplied(state, path, ListInsert, index, value).value, path, ListRemove, index, ignored) ==
            Some(state)
  {
    var items := Get(state, path).value.items;
    var longer := ListEdited(items, ListInsert, index, value).value;
    ReplaceThenGet(state, path, Arr(longer));
    assert longer[..index] + longer[index + 1..] == items;
    ReplaceTwice(state, path, Arr(longer), Arr(items));
    GetThenReplace(state, path);
  }
}
