/**
 The environment overrides of app/config/runtime.py on dictionaries that are changed in place, where
 several may hold the same one. The phase copies the caller's dictionaries and writes into the copy.
 */
module EnvOverridesInPlace {
  import opened Prelude
  import opened ConfigTree
  import opened EnvOverrides
  import opened SharedConfig
  import opened SharedOverrides

  class Dict {
    var fields: map<string, Cell<Dict>>

    constructor ()
      ensures fields == map[]
    {
      fields := map[];
    }
  }

  ghost function View(all: set<Dict>): (h: Heap<Dict>)
    reads all
    ensures h.Keys == all
  {
    map d | d in all :: d.fields
  }

  // ----- The nested write -----

  /** How far the walk has come: it is among the dictionaries there were, or in one that it has just made. */
  ghost predicate OnTheWay(h: Heap<Dict>, root: Dict, path: Path, i: nat, current: Dict, h': Heap<Dict>)
    requires i < |path|
  {
    var s := End(h, root, path);
    var j := |path| - |s.rest|;
    && s.rest == path[j..] && current in h'
    && (j >= i ==> h' == h && End(h, current, path[i..]) == s)
    && (j < i ==> h'[current] == map[] && Planted(h, Slot(s.at, path[j..i]), Ref(current), h'))
  }

  lemma {:induction false} EndIsSuffix(h: Heap<Dict>, at: Dict, path: Path)
    requires path != []
    ensures End(h, at, path).rest == path[|path| - |End(h, at, path).rest|..]
    decreases |path|
  {
    if |path| > 1 && Next(h, at, path[0]).Some? {
      EndIsSuffix(h, Next(h, at, path[0]).value, path[1..]);
    }
  }

  lemma Begin(h: Heap<Dict>, root: Dict, path: Path)
    requires path != [] && root in h
    ensures OnTheWay(h, root, path, 0, root, h)
  {
    EndIsSuffix(h, root, path);
    assert path[0..] == path;
  }

  /** The path leads on into a dictionary that is there. */
  lemma WalkOn(h: Heap<Dict>, root: Dict, path: Path, i: nat, current: Dict, h': Heap<Dict>)
    requires i + 1 < |path| && OnTheWay(h, root, path, i, current, h') && Next(h', current, path[i]).Some?
    requires Closed(h')
    ensures OnTheWay(h, root, path, i + 1, Next(h', current, path[i]).value, h')
  {
    assert path[i..][1..] == path[i + 1..];
  }

  /** The path leads on into a new dictionary. */
  lemma MakeOne(h: Heap<Dict>, root: Dict, path: Path, i: nat, current: Dict, h': Heap<Dict>, child: Dict, h'': Heap<Dict>)
    requires i + 1 < |path| && OnTheWay(h, root, path, i, current, h') && Next(h', current, path[i]).None?
    requires child !in h' && h''.Keys == h'.Keys + {child} && h''[child] == map[]
    requires h''[current] == h'[current][path[i] := Ref(child)]
    requires forall x :: x in h' && x != current ==> h''[x] == h'[x]
    ensures OnTheWay(h, root, path, i + 1, child, h'')
  {
    var s := End(h, root, path);
    var j := |path| - |s.rest|;
    if j < i {
      assert path[j..i] + [path[i]] == path[j..i + 1];
      PlantGrows(h, Slot(s.at, path[j..i]), current, h', path[i], Ref(child), h'');
    } else {
      assert s == Slot(current, path[i..]) && j == i;
      assert path[i..i + 1] == [path[i]];
    }
  }

  /** The value comes to the last key. */
  lemma Arrive(h: Heap<Dict>, root: Dict, path: Path, current: Dict, h': Heap<Dict>, value: Json, h'': Heap<Dict>)
    requires path != [] && OnTheWay(h, root, path, |path| - 1, current, h')
    requires h''.Keys == h'.Keys && h''[current] == h'[current][path[|path| - 1] := Leaf(value)]
    requires forall x :: x in h' && x != current ==> h''[x] == h'[x]
    ensures Planted(h, End(h, root, path), Leaf(value), h'')
  {
    var s := End(h, root, path);
    var i, j := |path| - 1, |path| - |s.rest|;
    if j < i {
      assert path[j..i] + [path[i]] == path[j..];
      PlantGrows(h, Slot(s.at, path[j..i]), current, h', path[i], Leaf(value), h'');
    } else {
      assert s == Slot(current, path[i..]) && path[i..] == [path[i]];
    }
  }

  /** A dictionary under the key, made if there is none. */
  ghost predicate Entered(h: Heap<Dict>, current: Dict, key: string, child: Dict, h': Heap<Dict>)
    requires current in h
  {
    && (Next(h, current, key).Some? ==> h' == h && child == Next(h, current, key).value)
    && (Next(h, current, key).None? ==>
          && child !in h && h'.Keys == h.Keys + {child} && h'[child] == map[]
          && h'[current] == h[current][key := Ref(child)] && forall x :: x in h && x != current ==> h'[x] == h[x])
  }

  lemma StepOn(h: Heap<Dict>, root: Dict, path: Path, i: nat, current: Dict, h': Heap<Dict>, child: Dict, h'': Heap<Dict>)
    requires i + 1 < |path| && OnTheWay(h, root, path, i, current, h') && Closed(h')
    requires Entered(h', current, path[i], child, h'')
    ensures OnTheWay(h, root, path, i + 1, child, h'') && Closed(h'') && child in h''
  {
    if Next(h', current, path[i]).Some? {
      WalkOn(h, root, path, i, current, h');
    } else {
      MakeOne(h, root, path, i, current, h', child, h'');
    }
  }

  method Enter(current: Dict, key: string, ghost all: set<Dict>) returns (child: Dict, ghost now: set<Dict>)
    requires current in all
    modifies current
    ensures all <= now && fresh(now - all) && Entered(old(View(all)), current, key, child, View(now))
  {
    now := all;
    if !(key in current.fields && current.fields[key].Ref?) {
      child := new Dict();
      current.fields := current.fields[key := Ref(child)];
      now := now + {child};
    }
    child := current.fields[key].id;
  }

  method Advance(current: Dict, path: Path, i: nat, ghost all: set<Dict>, ghost h: Heap<Dict>, ghost root: Dict)
    returns (child: Dict, ghost now: set<Dict>)
    requires i + 1 < |path| && current in all && Closed(View(all)) && OnTheWay(h, root, path, i, current, View(all))
    modifies current
    ensures all <= now && fresh(now - all) && child in now && Closed(View(now))
    ensures OnTheWay(h, root, path, i + 1, child, View(now))
  {
    ghost var before := View(all);
    child, now := Enter(current, path[i], all);
    StepOn(h, root, path, i, current, before, child, View(now));
  }

  /** Walks down the path, making dictionaries where there are none, and writes at its end. */
  method SetNested(target: Dict, path: Path, value: Json, ghost all: set<Dict>) returns (ghost now: set<Dict>)
    requires target in all && path != [] && Closed(View(all))
    modifies all
    ensures all <= now && fresh(now - all)
    ensures Wrote(old(View(all)), target, path, value, View(now))
  {
    var current := target;
    now := all;
    ghost var h := View(all);
    Begin(h, target, path);
    for i := 0 to |path| - 1
      invariant all <= now && fresh(now - all) && current in now && Closed(View(now))
      invariant OnTheWay(h, target, path, i, current, View(now))
    {
      current, now := Advance(current, path, i, now, h, target);
    }
    PutLast(current, path, value, now, h, target);
  }

  method PutLast(current: Dict, path: Path, value: Json, ghost now: set<Dict>, ghost h: Heap<Dict>, ghost root: Dict)
    requires path != [] && current in now && Closed(View(now)) && OnTheWay(h, root, path, |path| - 1, current, View(now))
    modifies current
    ensures Wrote(h, root, path, value, View(now))
  {
    ghost var before := View(now);
    current.fields := current.fields[path[|path| - 1] := Leaf(value)];
    Arrive(h, root, path, current, before, value, View(now));
  }

  // ----- The copy -----

  ghost predicate Ready(memo: map<Dict, Dict>, all: set<Dict>) {
    memo.Keys <= all && memo.Values !! all && Injective(memo)
  }

  /** Every dictionary that is newly in the table has its copy there. */
  ghost predicate Grown(memo: map<Dict, Dict>, copies: map<Dict, Dict>, all: set<Dict>)
    reads copies.Keys, copies.Values
  {
    && Ready(copies, all)
    && (forall o :: o in memo ==> o in copies && copies[o] == memo[o])
    && (forall o :: o in copies && o !in memo ==> Renamed(o.fields, copies[o].fields, copies))
  }

  ghost predicate RenamedCell(cell: Cell<Dict>, copy: Cell<Dict>, m: map<Dict, Dict>) {
    if cell.Ref? then cell.id in m && copy == Ref(m[cell.id]) else copy == cell
  }

  /** All but some of the cells are copied. */
  ghost predicate PartRenamed(cells: map<string, Cell<Dict>>, copied: map<string, Cell<Dict>>, m: map<Dict, Dict>, todo: set<string>) {
    && copied.Keys == cells.Keys - todo && todo <= cells.Keys
    && forall k :: k in copied ==> RenamedCell(cells[k], copied[k], m)
  }

  lemma RenamedAll(cells: map<string, Cell<Dict>>, copied: map<string, Cell<Dict>>, m: map<Dict, Dict>)
    requires PartRenamed(cells, copied, m, {})
    ensures Renamed(cells, copied, m)
  {
    assert forall k :: k in cells ==> RenamedCell(cells[k], copied[k], m);
  }

  method CopyCell(cell: Cell<Dict>, memo: map<Dict, Dict>, ghost all: set<Dict>) returns (copy: Cell<Dict>, copies: map<Dict, Dict>)
    requires cell.Ref? ==> cell.id in all
    requires Closed(View(all)) && Ready(memo, all)
    ensures Grown(memo, copies, all) && RenamedCell(cell, copy, copies)
    ensures forall o :: o in copies && o !in memo ==> fresh(copies[o])
    decreases all - memo.Keys, 1
  {
    copy, copies := cell, memo;
    if cell.Ref? {
      var child;
      child, copies := CopyDict(cell.id, memo, all);
      copy := Ref(child);
    }
  }

  /** Copies a dictionary and what it leads to, except for what has been copied before. */
  method CopyDict(d: Dict, memo: map<Dict, Dict>, ghost all: set<Dict>) returns (c: Dict, copies: map<Dict, Dict>)
    requires d in all && Closed(View(all)) && Ready(memo, all)
    ensures Grown(memo, copies, all) && d in copies && copies[d] == c
    ensures forall o :: o in copies && o !in memo ==> fresh(copies[o])
    decreases all - memo.Keys, 0
  {
    if d in memo {
      return memo[d], memo;
    }
    c := new Dict();
    assert d in all - memo.Keys && d !in all - memo[d := c].Keys;
    var cells;
    cells, copies := CopyCells(d, memo[d := c], all);
    c.fields := cells;
    assert Renamed(d.fields, c.fields, copies);
  }

  method CopyCells(d: Dict, memo: map<Dict, Dict>, ghost all: set<Dict>)
    returns (cells: map<string, Cell<Dict>>, copies: map<Dict, Dict>)
    requires d in all && Closed(View(all)) && Ready(memo, all)
    ensures Grown(memo, copies, all) && Renamed(d.fields, cells, copies)
    ensures forall o :: o in copies && o !in memo ==> fresh(copies[o])
    decreases all - memo.Keys, 2
  {
    cells, copies := map[], memo;
    var todo := d.fields.Keys;
    while todo != {}
      invariant Grown(memo, copies, all) && PartRenamed(d.fields, cells, copies, todo)
      invariant forall o :: o in copies && o !in memo ==> fresh(copies[o])
      decreases |todo|
    {
      var key :| key in todo;
      var copy, more := CopyCell(d.fields[key], copies, all);
      GrownOn(memo, copies, more, all);
      cells := cells[key := copy];
      copies, todo := more, todo - {key};
    }
    RenamedAll(d.fields, cells, copies);
  }

  lemma GrownOn(memo: map<Dict, Dict>, copies: map<Dict, Dict>, more: map<Dict, Dict>, all: set<Dict>)
    requires Grown(memo, copies, all) && Grown(copies, more, all)
    ensures Grown(memo, more, all)
  {
    forall o | o in more && o !in memo ensures Renamed(o.fields, more[o].fields, more) {
      if o in copies {
        assert Renamed(o.fields, copies[o].fields, copies);
      }
    }
  }

  /** A copy of its own for every dictionary that `d` leads to: what was shared in the original is shared in the copy. */
  method DeepCopy(d: Dict, ghost all: set<Dict>) returns (c: Dict, ghost copies: map<Dict, Dict>)
    requires d in all && Closed(View(all))
    ensures fresh(copies.Values) && copies.Values !! all && d in copies && copies[d] == c
    ensures Alike(View(all), View(copies.Values), copies) && Closed(View(copies.Values))
    ensures forall path: Path :: Look(View(copies.Values), c, path) == Look(View(all), d, path)
  {
    c, copies := CopyDict(d, map[], all);
    ghost var h, g := View(all), View(copies.Values);
    assert Alike(h, g, copies);
    CopyIsClosed(h, g, copies);
    forall path: Path ensures Look(g, c, path) == Look(h, d, path) {
      LookAlike(h, g, copies, d, path);
    }
  }

  lemma CopyIsClosed(h: Heap<Dict>, g: Heap<Dict>, m: map<Dict, Dict>)
    requires Alike(h, g, m) && g.Keys == m.Values
    ensures Closed(g)
  {
    forall c, k | c in g && k in g[c] && g[c][k].Ref? ensures g[c][k].id in g {
      var d :| d in m && m[d] == c;
      assert Renamed(h[d], g[c], m);
    }
  }

  // ----- The phase -----

  /** Writes the value of a variable that is set. */
  method WriteRow(env: map<string, string>, name: string, path: Path, target: Dict,
                  ghost all: set<Dict>, ghost hs: seq<Heap<Dict>>, ghost writes: seq<Write>)
    returns (ghost now: set<Dict>, ghost more: seq<Heap<Dict>>)
    requires target in all && Closed(View(all)) && path != []
    requires Phase(hs, target, writes) && Last(hs) == View(all)
    modifies all
    ensures all <= now && fresh(now - all) && Closed(View(now))
    ensures Phase(more, target, writes + if IsSet(env, name) then [Write(path, Str(env[name]))] else [])
    ensures more[0] == hs[0] && Last(more) == View(now)
  {
    now, more := all, hs;
    if name in env && env[name] != "" {
      now := SetNested(target, path, Str(env[name]), all);
      PhaseGoesOn(hs, target, writes, Write(path, Str(env[name])), View(now));
      more := hs + [View(now)];
    } else {
      assert writes + [] == writes;
    }
  }

  /** Writes what the environment asks for, row by row. */
  method WriteTable(env: map<string, string>, table: seq<(string, Path)>, target: Dict, ghost all: set<Dict>)
    returns (ghost now: set<Dict>, ghost hs: seq<Heap<Dict>>)
    requires target in all && Closed(View(all)) && TableOk(table)
    modifies all
    ensures all <= now && fresh(now - all)
    ensures Phase(hs, target, WritesFor(env, table)) && hs[0] == old(View(all)) && Last(hs) == View(now)
  {
    now, hs := all, [View(all)];
    for i := 0 to |table|
      invariant all <= now && fresh(now - all) && Closed(View(now))
      invariant Phase(hs, target, WritesFor(env, table[..i])) && hs[0] == old(View(all)) && Last(hs) == View(now)
    {
      RowAppended(env, table, i);
      now, hs := WriteRow(env, table[i].0, table[i].1, target, now, hs, WritesFor(env, table[..i]));
    }
    assert table[..|table|] == table;
  }

  /**
   The override phase: it writes into a copy, and no dictionary of the caller's changes. Different values
   all read back exactly when no two of the caller's sections that get an `api_key` are one dictionary.
   */
  method ApplyEnvOverrides(env: map<string, string>, data: Dict, ghost all: set<Dict>)
    returns (overridden: Dict, ghost now: set<Dict>, ghost hs: seq<Heap<Dict>>, ghost copies: map<Dict, Dict>)
    requires data in all && Closed(View(all))
    ensures fresh(now) && overridden in now && View(all) == old(View(all))
    ensures hs != [] && data in copies && overridden == copies[data] && Alike(View(all), hs[0], copies)
    ensures Phase(hs, overridden, WritesFor(env, ENV_OVERRIDE_MAP)) && Last(hs) == View(now)
    ensures DistinctValues(WritesFor(env, ENV_OVERRIDE_MAP)) ==>
              (ReadsBack(View(now), overridden, WritesFor(env, ENV_OVERRIDE_MAP)) <==> SectionsApart(View(all), data, env))
  {
    overridden, copies := DeepCopy(data, all);
    TableIsPrefixFree();
    ghost var h := View(all);
    now, hs := WriteTable(env, ENV_OVERRIDE_MAP, overridden, copies.Values);
    assert View(all) == h;
    if DistinctValues(WritesFor(env, ENV_OVERRIDE_MAP)) {
      OverridesReadBackIff(hs, overridden, env);
      SectionsApartAlike(h, hs[0], copies, data, env);
    }
  }
}
