/** Nested configuration values, paths into them, and the nested write of app/config/runtime.py. */
module ConfigTree {
  import opened Prelude

  datatype Json =
    | Null
    | Bool(b: bool)
    | Num(n: real)
    | Str(s: string)
    | Arr(items: seq<Json>)
    | Obj(fields: map<string, Json>)

  type Path = seq<string>

  /** What is found by following `path` through objects. */
  function Lookup(j: Json, path: Path): Option<Json>
    decreases |path|
  {
    if path == [] then Some(j)
    else if j.Obj? && path[0] in j.fields then Lookup(j.fields[path[0]], path[1..])
    else None
  }

  /** The object to descend into: a value that is missing or not an object is replaced by an empty one. */
  function Child(fields: map<string, Json>, key: string): map<string, Json> {
    if key in fields && fields[key].Obj? then fields[key].fields else map[]
  }

  /** Writes `value` at `path`, making the objects on the way; the table of paths has no empty one. */
  function SetNested(fields: map<string, Json>, path: Path, value: Json): map<string, Json>
    decreases |path|
  {
    if path == [] then fields
    else if |path| == 1 then fields[path[0] := value]
    else fields[path[0] := Obj(SetNested(Child(fields, path[0]), path[1..], value))]
  }

  /** Neither path leads through the other. */
  predicate Incomparable(p: Path, q: Path) {
    !(p <= q) && !(q <= p)
  }

  lemma IncomparableTails(p: Path, q: Path)
    requires p != [] && q != [] && Incomparable(p, q)
    ensures p[0] != q[0] || (|p| >= 2 && |q| >= 2 && Incomparable(p[1..], q[1..]))
  {
    assert p == [p[0]] + p[1..] && q == [q[0]] + q[1..];
  }

  /** A written path reads back the value. */
  lemma {:induction false} SetThenGet(fields: map<string, Json>, path: Path, value: Json)
    requires path != []
    ensures Lookup(Obj(SetNested(fields, path, value)), path) == Some(value)
    decreases |path|
  {
    if |path| == 1 {
      assert path[1..] == [];
    } else {
      SetThenGet(Child(fields, path[0]), path[1..], value);
    }
  }

  lemma NothingBelow(fields: map<string, Json>, key: string, rest: Path)
    requires rest != [] && !(key in fields && fields[key].Obj?)
    ensures Lookup(Obj(fields), [key] + rest) == None && Lookup(Obj(Child(fields, key)), rest) == None
  {
    assert ([key] + rest)[1..] == rest;
  }

  /** A path that is neither under nor above the written one keeps its content. */
  lemma {:induction false} SetKeepsOthers(fields: map<string, Json>, path: Path, value: Json, other: Path)
    requires path != [] && other != [] && Incomparable(path, other)
    ensures Lookup(Obj(SetNested(fields, path, value)), other) == Lookup(Obj(fields), other)
    decreases |path|
  {
    IncomparableTails(path, other);
    if path[0] == other[0] {
      SetKeepsOthers(Child(fields, path[0]), path[1..], value, other[1..]);
      if !(path[0] in fields && fields[path[0]].Obj?) {
        NothingBelow(fields, path[0], other[1..]);
        assert other == [path[0]] + other[1..];
      }
    }
  }

  /** Two writes that enter the same object are two writes into that object. */
  lemma SetInside(fields: map<string, Json>, p: Path, v: Json, q: Path, w: Json)
    requires |p| >= 2 && |q| >= 2 && p[0] == q[0]
    ensures SetNested(SetNested(fields, p, v), q, w)
            == fields[p[0] := Obj(SetNested(SetNested(Child(fields, p[0]), p[1..], v), q[1..], w))]
  {
    var inner := SetNested(Child(fields, p[0]), p[1..], v);
    assert SetNested(fields, p, v) == fields[p[0] := Obj(inner)];
    assert Child(fields[p[0] := Obj(inner)], q[0]) == inner;
  }

  /** What a write puts under the first key of its path. */
  function Replacement(fields: map<string, Json>, path: Path, value: Json): Json
    requires path != []
  {
    if |path| == 1 then value else Obj(SetNested(Child(fields, path[0]), path[1..], value))
  }

  /** Writes under different first keys do not see each other. */
  lemma SetBeside(fields: map<string, Json>, p: Path, v: Json, q: Path, w: Json)
    requires p != [] && q != [] && p[0] != q[0]
    ensures SetNested(SetNested(fields, p, v), q, w)
            == fields[p[0] := Replacement(fields, p, v)][q[0] := Replacement(fields, q, w)]
  {
    var first := fields[p[0] := Replacement(fields, p, v)];
    assert SetNested(fields, p, v) == first;
    assert Child(first, q[0]) == Child(fields, q[0]);
  }

  lemma UpdatesCommute(fields: map<string, Json>, k: string, x: Json, l: string, y: Json)
    requires k != l
    ensures fields[k := x][l := y] == fields[l := y][k := x]
  {
  }

  lemma ApartCommute(fields: map<string, Json>, p: Path, v: Json, q: Path, w: Json)
    requires p != [] && q != [] && p[0] != q[0]
    ensures SetNested(SetNested(fields, p, v), q, w) == SetNested(SetNested(fields, q, w), p, v)
  {
    SetBeside(fields, p, v, q, w);
    SetBeside(fields, q, w, p, v);
    UpdatesCommute(fields, p[0], Replacement(fields, p, v), q[0], Replacement(fields, q, w));
  }

  /** Writes to paths that do not lead through each other commute. */
  lemma {:induction false} SetsCommute(fields: map<string, Json>, p: Path, v: Json, q: Path, w: Json)
    requires p != [] && q != [] && Incomparable(p, q)
    ensures SetNested(SetNested(fields, p, v), q, w) == SetNested(SetNested(fields, q, w), p, v)
    decreases |p|
  {
    IncomparableTails(p, q);
    if p[0] != q[0] {
      ApartCommute(fields, p, v, q, w);
    } else {
      SetsCommute(Child(fields, p[0]), p[1..], v, q[1..], w);
      SetInside(fields, p, v, q, w);
      SetInside(fields, q, w, p, v);
    }
  }

  /** The second of two writes to one path wins. */
  lemma {:induction false} SetTwice(fields: map<string, Json>, p: Path, v: Json, w: Json)
    requires p != []
    ensures SetNested(SetNested(fields, p, v), p, w) == SetNested(fields, p, w)
    decreases |p|
  {
    if |p| > 1 {
      SetTwice(Child(fields, p[0]), p[1..], v, w);
    }
  }
}
