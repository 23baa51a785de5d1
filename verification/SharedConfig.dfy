/**
 Configurations in which several paths may lead to one dictionary, as YAML aliases make them. A heap gives
 each dictionary's cells; the nested write of app/config/runtime.py changes one of them.
 */
module SharedConfig {
  import opened Prelude
  import opened ConfigTree

  /** Another dictionary, by reference, or anything else. */
  datatype Cell<Id> = Leaf(json: Json) | Ref(id: Id)

  type Heap<Id> = map<Id, map<string, Cell<Id>>>

  ghost predicate Closed<Id>(h: Heap<Id>) {
    forall d, k :: d in h && k in h[d] && h[d][k].Ref? ==> h[d][k].id in h
  }

  /** The dictionary under a key. */
  ghost function Next<Id>(h: Heap<Id>, at: Id, key: string): Option<Id> {
    if at in h && key in h[at] && h[at][key].Ref? then Some(h[at][key].id) else None
  }

  /** What stands at the end of a path. */
  ghost function Follow<Id>(h: Heap<Id>, at: Id, path: Path): Option<Cell<Id>>
    decreases |path|
  {
    if path == [] then Some(Ref(at))
    else match Next(h, at, path[0])
      case Some(d) => Follow(h, d, path[1..])
      case None => if |path| == 1 && at in h && path[0] in h[at] then Some(h[at][path[0]]) else None
  }

  /** What a reader of the configuration sees there. */
  datatype Sight = Absent | Section | Holding(json: Json)

  ghost function Seen<Id>(cell: Option<Cell<Id>>): Sight {
    match cell
    case None => Absent
    case Some(Ref(_)) => Section
    case Some(Leaf(json)) => Holding(json)
  }

  ghost function Look<Id>(h: Heap<Id>, at: Id, path: Path): Sight {
    Seen(Follow(h, at, path))
  }

  // ----- The write -----

  /** A key of a dictionary, with the keys that are still to come. */
  datatype Slot<Id> = Slot(at: Id, rest: Path)

  /** Where a write begins to change things: the last dictionary that is there already, and the rest of the path. */
  ghost function End<Id>(h: Heap<Id>, at: Id, path: Path): (s: Slot<Id>)
    requires path != []
    ensures s.rest != [] && |s.rest| <= |path|
    ensures |s.rest| >= 2 ==> Next(h, s.at, s.rest[0]).None?
    decreases |path|
  {
    if |path| == 1 then Slot(at, path)
    else match Next(h, at, path[0])
      case Some(d) => End(h, d, path[1..])
      case None => Slot(at, path)
  }

  /** New dictionaries with one key each lead from a cell to the last one. */
  ghost predicate Chain<Id>(known: set<Id>, h: Heap<Id>, cell: Cell<Id>, keys: Path, last: Cell<Id>)
    decreases |keys|
  {
    if keys == [] then cell == last && (last.Ref? ==> last.id !in known)
    else
      && cell.Ref? && cell.id !in known && cell.id in h && h[cell.id].Keys == {keys[0]}
      && Chain(known + {cell.id}, h, h[cell.id][keys[0]], keys[1..], last)
  }

  /** One key of one dictionary is new, and leads to `last`; all else is as before. */
  ghost predicate Planted<Id>(h: Heap<Id>, s: Slot<Id>, last: Cell<Id>, h': Heap<Id>) {
    && s.rest != [] && s.at in h && h.Keys <= h'.Keys
    && (forall d :: d in h && d != s.at ==> h'[d] == h[d])
    && s.rest[0] in h'[s.at] && h'[s.at] == h[s.at][s.rest[0] := h'[s.at][s.rest[0]]]
    && Chain(h.Keys, h', h'[s.at][s.rest[0]], s.rest[1..], last)
  }

  ghost predicate Wrote<Id>(h: Heap<Id>, root: Id, path: Path, value: Json, h': Heap<Id>)
    requires path != []
  {
    Closed(h') && Planted(h, End(h, root, path), Leaf(value), h')
  }

  // ----- What a write does to a path -----

  /** The rest of a path from where it first asks for this key of this dictionary. */
  ghost function Use<Id>(h: Heap<Id>, at: Id, path: Path, d: Id, key: string): (tail: Option<Path>)
    ensures tail.Some? ==> tail.value != [] && tail.value[0] == key && |tail.value| <= |path|
    decreases |path|
  {
    if path == [] then None
    else if at == d && path[0] == key then Some(path)
    else match Next(h, at, path[0])
      case Some(next) => Use(h, next, path[1..], d, key)
      case None => None
  }

  /** What a reader sees who asks for `tail` where `rest` has been written. */
  function Below(rest: Path, tail: Path, value: Json): Sight {
    if tail == rest then Holding(value) else if tail <= rest then Section else Absent
  }

  lemma {:induction false} LookInChain<Id>(known: set<Id>, h: Heap<Id>, at: Id, keys: Path, value: Json, tail: Path)
    requires keys != [] && Chain(known, h, Ref(at), keys, Leaf(value))
    ensures Look(h, at, tail) == Below(keys, tail, value)
    decreases |keys|
  {
    if tail != [] && tail[0] == keys[0] {
      var cell := h[at][keys[0]];
      if |keys| == 1 {
        assert keys == [keys[0]];
        assert |tail| == 1 ==> tail == [tail[0]];
      } else {
        LookInChain(known + {at}, h, cell.id, keys[1..], value, tail[1..]);
        assert keys == [keys[0]] + keys[1..] && tail == [tail[0]] + tail[1..];
      }
    }
  }

  /** A path that does not ask for the new key ends where it did; every other one sees what was written. */
  lemma {:induction false} FollowAfter<Id>(h: Heap<Id>, s: Slot<Id>, value: Json, h': Heap<Id>, at: Id, path: Path)
    requires Closed(h) && at in h && Planted(h, s, Leaf(value), h')
    ensures var u := Use(h, at, path, s.at, s.rest[0]);
            && (u.None? ==> Follow(h', at, path) == Follow(h, at, path))
            && (u.Some? ==> Look(h', at, path) == Below(s.rest, u.value, value))
    decreases |path|
  {
    if path != [] {
      if at == s.at && path[0] == s.rest[0] {
        LookAtSlot(h, s, value, h', path);
      } else if Next(h, at, path[0]).Some? {
        FollowAfter(h, s, value, h', Next(h, at, path[0]).value, path[1..]);
      }
    }
  }

  lemma LookAtSlot<Id>(h: Heap<Id>, s: Slot<Id>, value: Json, h': Heap<Id>, path: Path)
    requires Planted(h, s, Leaf(value), h') && path != [] && path[0] == s.rest[0]
    ensures Look(h', s.at, path) == Below(s.rest, path, value)
  {
    var cell := h'[s.at][s.rest[0]];
    if |s.rest| == 1 {
      assert s.rest == [s.rest[0]];
      assert |path| == 1 ==> path == [path[0]];
    } else {
      LookInChain(h.Keys, h', cell.id, s.rest[1..], value, path[1..]);
      assert s.rest == [s.rest[0]] + s.rest[1..] && path == [path[0]] + path[1..];
    }
  }

  // ----- Paths that disturb each other -----

  /** The path leads to this slot, and from there on along the slot's path or through it. */
  ghost predicate Meets<Id>(h: Heap<Id>, at: Id, path: Path, s: Slot<Id>)
    requires s.rest != []
  {
    var u := Use(h, at, path, s.at, s.rest[0]);
    u.Some? && !Incomparable(u.value, s.rest)
  }

  /** A write along the first path is seen along the second. */
  ghost predicate Disturbs<Id>(h: Heap<Id>, root: Id, written: Path, path: Path)
    requires written != []
  {
    Meets(h, root, path, End(h, root, written))
  }

  ghost predicate Clash<Id>(h: Heap<Id>, root: Id, p: Path, q: Path)
    requires p != [] && q != []
  {
    Disturbs(h, root, p, q) || Disturbs(h, root, q, p)
  }

  /** No key comes twice along the path; so it is in the table of overrides. */
  predicate Simple(path: Path) {
    forall i, j :: 0 <= i < j < |path| ==> path[i] != path[j]
  }

  lemma {:induction false} EndInHeap<Id>(h: Heap<Id>, at: Id, path: Path)
    requires Closed(h) && at in h && path != []
    ensures End(h, at, path).at in h
    decreases |path|
  {
    if |path| > 1 && Next(h, at, path[0]).Some? {
      EndInHeap(h, Next(h, at, path[0]).value, path[1..]);
    }
  }

  lemma {:induction false} EndIsTail<Id>(h: Heap<Id>, at: Id, path: Path)
    requires path != []
    ensures End(h, at, path).rest[0] == path[|path| - |End(h, at, path).rest|]
    decreases |path|
  {
    if |path| > 1 && Next(h, at, path[0]).Some? {
      EndIsTail(h, Next(h, at, path[0]).value, path[1..]);
    }
  }

  lemma {:induction false} UseIsTail<Id>(h: Heap<Id>, at: Id, path: Path, d: Id, key: string)
    requires Use(h, at, path, d, key).Some?
    ensures key == path[|path| - |Use(h, at, path, d, key).value|]
    decreases |path|
  {
    if !(at == d && path[0] == key) {
      UseIsTail(h, Next(h, at, path[0]).value, path[1..], d, key);
    }
  }

  /** A path asks for nothing after its end, and asks for its end. */
  lemma {:induction false} UseBeforeEnd<Id>(h: Heap<Id>, at: Id, path: Path, d: Id, key: string)
    requires path != []
    ensures var e, u := End(h, at, path), Use(h, at, path, d, key);
            && (d == e.at && key == e.rest[0] ==> u.Some?)
            && (u.Some? ==> |u.value| >= |e.rest|)
            && (u.Some? && |u.value| == |e.rest| ==> u.value == e.rest && d == e.at)
    decreases |path|
  {
    if |path| > 1 && Next(h, at, path[0]).Some? {
      UseBeforeEnd(h, Next(h, at, path[0]).value, path[1..], d, key);
    }
  }

  lemma SimpleUsesEnd<Id>(h: Heap<Id>, at: Id, path: Path)
    requires path != [] && Simple(path)
    ensures var e := End(h, at, path); Use(h, at, path, e.at, e.rest[0]) == Some(e.rest)
  {
    var e := End(h, at, path);
    UseBeforeEnd(h, at, path, e.at, e.rest[0]);
    EndIsTail(h, at, path);
    UseIsTail(h, at, path, e.at, e.rest[0]);
  }

  /** A path that asks for a key without a dictionary ends there. */
  lemma {:induction false} UsedEnd<Id>(h: Heap<Id>, at: Id, path: Path, d: Id, key: string)
    requires Use(h, at, path, d, key).Some? && Next(h, d, key).None?
    ensures End(h, at, path) == Slot(d, Use(h, at, path, d, key).value)
    decreases |path|
  {
    if !(at == d && path[0] == key) {
      UsedEnd(h, Next(h, at, path[0]).value, path[1..], d, key);
    }
  }

  /** A written path reads back its value, unless it has gone through the changed key before. */
  lemma ReadsBackIff<Id>(h: Heap<Id>, root: Id, path: Path, value: Json, h': Heap<Id>)
    requires Closed(h) && root in h && path != [] && Wrote(h, root, path, value, h')
    ensures var e := End(h, root, path);
            Look(h', root, path) == Holding(value) <==> Use(h, root, path, e.at, e.rest[0]) == Some(e.rest)
    ensures Simple(path) ==> Look(h', root, path) == Holding(value)
  {
    var e := End(h, root, path);
    FollowAfter(h, e, value, h', root, path);
    UseBeforeEnd(h, root, path, e.at, e.rest[0]);
    if Simple(path) {
      SimpleUsesEnd(h, root, path);
    }
  }

  /** A path that the write does not disturb is seen as before. */
  lemma UndisturbedIsKept<Id>(h: Heap<Id>, root: Id, path: Path, value: Json, h': Heap<Id>, other: Path)
    requires Closed(h) && root in h && path != [] && Wrote(h, root, path, value, h')
    requires !Disturbs(h, root, path, other)
    ensures Look(h', root, other) == Look(h, root, other)
  {
    var e := End(h, root, path);
    FollowAfter(h, e, value, h', root, other);
    var u := Use(h, root, other, e.at, e.rest[0]);
    if u.Some? {
      IncomparableAreLong(u.value, e.rest);
      AbsentBeyond(h, root, other, e.at, e.rest[0]);
    }
  }

  lemma IncomparableAreLong(x: Path, y: Path)
    requires x != [] && y != [] && x[0] == y[0] && Incomparable(x, y)
    ensures |x| > 1 && |y| > 1
  {
    assert x == [x[0]] + x[1..] && y == [y[0]] + y[1..];
  }

  lemma {:induction false} AbsentBeyond<Id>(h: Heap<Id>, at: Id, path: Path, d: Id, key: string)
    requires Use(h, at, path, d, key).Some? && |Use(h, at, path, d, key).value| > 1 && Next(h, d, key).None?
    ensures Follow(h, at, path) == None
    decreases |path|
  {
    if !(at == d && path[0] == key) {
      AbsentBeyond(h, Next(h, at, path[0]).value, path[1..], d, key);
    }
  }

  // ----- Ends and uses after a write -----

  lemma {:induction false} ChainAvoids<Id>(known: set<Id>, h: Heap<Id>, at: Id, keys: Path, value: Json, path: Path, d: Id, key: string)
    requires keys != [] && Chain(known, h, Ref(at), keys, Leaf(value)) && d in known
    ensures Use(h, at, path, d, key) == None
    decreases |keys|
  {
    if path != [] && Next(h, at, path[0]).Some? {
      ChainAvoids(known + {at}, h, Next(h, at, path[0]).value, keys[1..], value, path[1..], d, key);
    }
  }

  /** What the path asked for before it came to the new key. */
  function Upto(tail: Option<Path>, u: Option<Path>): Option<Path> {
    if tail.Some? && (u.None? || |tail.value| >= |u.value|) then tail else None
  }

  lemma {:induction false} UseAfter<Id>(h: Heap<Id>, s: Slot<Id>, value: Json, h': Heap<Id>, at: Id, path: Path, d: Id, key: string)
    requires Closed(h) && at in h && d in h && Planted(h, s, Leaf(value), h')
    ensures Use(h', at, path, d, key) == Upto(Use(h, at, path, d, key), Use(h, at, path, s.at, s.rest[0]))
    decreases |path|
  {
    if path != [] {
      if at == s.at && path[0] == s.rest[0] {
        if !(d == at && key == path[0]) && Next(h', at, path[0]).Some? {
          ChainAvoids(h.Keys, h', Next(h', at, path[0]).value, s.rest[1..], value, path[1..], d, key);
        }
      } else if Next(h, at, path[0]).Some? {
        UseAfter(h, s, value, h', Next(h, at, path[0]).value, path[1..], d, key);
      }
    }
  }

  lemma {:induction false} UseOfNew<Id>(h: Heap<Id>, s: Slot<Id>, value: Json, h': Heap<Id>, at: Id, path: Path, d: Id, key: string)
    requires Closed(h) && at in h && d !in h && Planted(h, s, Leaf(value), h')
    ensures var u := Use(h, at, path, s.at, s.rest[0]);
            Use(h', at, path, d, key) == if u.Some? then Use(h', s.at, u.value, d, key) else None
    decreases |path|
  {
    if path != [] && !(at == s.at && path[0] == s.rest[0]) && Next(h, at, path[0]).Some? {
      UseOfNew(h, s, value, h', Next(h, at, path[0]).value, path[1..], d, key);
    }
  }

  lemma {:induction false} EndAfter<Id>(h: Heap<Id>, s: Slot<Id>, value: Json, h': Heap<Id>, at: Id, path: Path)
    requires Closed(h) && at in h && path != [] && Planted(h, s, Leaf(value), h')
    ensures var u := Use(h, at, path, s.at, s.rest[0]);
            End(h', at, path) == if u.Some? then End(h', s.at, u.value) else End(h, at, path)
    decreases |path|
  {
    if |path| > 1 && !(at == s.at && path[0] == s.rest[0]) && Next(h, at, path[0]).Some? {
      EndAfter(h, s, value, h', Next(h, at, path[0]).value, path[1..]);
    }
  }

  /** Inside a chain, paths meet as they do on paper. */
  lemma {:induction false} MeetInChain<Id>(known: set<Id>, h: Heap<Id>, at: Id, keys: Path, value: Json, x: Path, y: Path)
    requires keys != [] && Chain(known, h, Ref(at), keys, Leaf(value)) && x != [] && (y <= keys ==> y == keys)
    ensures End(h, at, x).at !in known
    ensures Meets(h, at, y, End(h, at, x)) <==> !Incomparable(y, x)
    decreases |keys|
  {
    assert y != [];
    var next := Next(h, at, keys[0]);
    if |x| > 1 && Next(h, at, x[0]).Some? {
      if y[0] == x[0] {
        TailsCompare(y, x);
        TailsCompare(y, keys);
        MeetInChain(known + {at}, h, next.value, keys[1..], value, x[1..], y[1..]);
      } else {
        MeetInChain(known + {at}, h, next.value, keys[1..], value, x[1..], keys[1..]);
      }
    } else if y[0] != x[0] && Next(h, at, y[0]).Some? {
      ChainAvoids(known + {at}, h, next.value, keys[1..], value, y[1..], at, x[0]);
    }
  }

  lemma TailsCompare(x: Path, y: Path)
    requires x != [] && y != [] && x[0] == y[0]
    ensures x <= y <==> x[1..] <= y[1..]
    ensures y <= x <==> y[1..] <= x[1..]
    ensures x == y <==> x[1..] == y[1..]
  {
    assert x == [x[0]] + x[1..] && y == [y[0]] + y[1..];
  }

  /** And so they do from the changed key on. */
  lemma MeetAtSlot<Id>(h: Heap<Id>, s: Slot<Id>, value: Json, h': Heap<Id>, x: Path, y: Path)
    requires Planted(h, s, Leaf(value), h') && x != [] && y != [] && x[0] == s.rest[0] && y[0] == s.rest[0]
    requires y <= s.rest ==> y == s.rest
    ensures var e := End(h', s.at, x);
            && (e.at in h ==> e == Slot(s.at, x))
            && (Meets(h', s.at, y, e) <==> !Incomparable(y, x))
  {
    if |x| > 1 && Next(h', s.at, x[0]).Some? {
      TailsCompare(y, x);
      TailsCompare(y, s.rest);
      MeetInChain(h.Keys, h', Next(h', s.at, x[0]).value, s.rest[1..], value, x[1..], y[1..]);
    }
  }

  /** After a write, a second one disturbs the first exactly when their paths clashed before both. */
  lemma PairClash<Id>(h: Heap<Id>, root: Id, p: Path, value: Json, h': Heap<Id>, q: Path)
    requires Closed(h) && root in h && p != [] && q != [] && Simple(p) && Wrote(h, root, p, value, h')
    ensures Disturbs(h', root, q, p) <==> Clash(h, root, p, q)
  {
    var s := End(h, root, p);
    var u, e := Use(h, root, q, s.at, s.rest[0]), End(h', root, q);
    SimpleUsesEnd(h, root, p);
    EndAfter(h, s, value, h', root, q);
    if u.None? {
      EndInHeap(h, root, q);
      UseAfter(h, s, value, h', root, p, e.at, e.rest[0]);
      UseBeforeEnd(h, root, p, e.at, e.rest[0]);
    } else {
      MeetAtSlot(h, s, value, h', u.value, s.rest);
      if e.at in h {
        UseAfter(h, s, value, h', root, p, e.at, e.rest[0]);
      } else {
        UseOfNew(h, s, value, h', root, p, e.at, e.rest[0]);
      }
      if Incomparable(u.value, s.rest) {
        IncomparableAreLong(u.value, s.rest);
        UsedEnd(h, root, q, s.at, s.rest[0]);
      }
    }
  }

  /** Two paths that a write does not disturb disturb each other after it as they did before. */
  lemma UndisturbedKeepTheirClashes<Id>(h: Heap<Id>, root: Id, p: Path, value: Json, h': Heap<Id>, x: Path, y: Path)
    requires Closed(h) && root in h && p != [] && x != [] && Wrote(h, root, p, value, h')
    requires !Disturbs(h, root, p, x) && !Disturbs(h, root, p, y)
    ensures Disturbs(h', root, x, y) <==> Disturbs(h, root, x, y)
  {
    var s := End(h, root, p);
    var u, v, e := Use(h, root, x, s.at, s.rest[0]), Use(h, root, y, s.at, s.rest[0]), End(h', root, x);
    EndAfter(h, s, value, h', root, x);
    EndInHeap(h, root, x);
    if u.None? {
      UseAfter(h, s, value, h', root, y, e.at, e.rest[0]);
      if v.Some? {
        EndsAtSlot(h, s, root, y);
        UseBeforeEnd(h, root, y, e.at, e.rest[0]);
      }
    } else {
      EndsAtSlot(h, s, root, x);
      if v.Some? {
        IncomparableAreLong(v.value, s.rest);
        MeetAtSlot(h, s, value, h', u.value, v.value);
      }
      MeetAtSlot(h, s, value, h', u.value, s.rest);
      if e.at in h {
        UseAfter(h, s, value, h', root, y, e.at, e.rest[0]);
      } else {
        UseOfNew(h, s, value, h', root, y, e.at, e.rest[0]);
      }
    }
  }

  lemma EndsAtSlot<Id>(h: Heap<Id>, s: Slot<Id>, root: Id, x: Path)
    requires s.rest != [] && x != [] && (|s.rest| > 1 ==> Next(h, s.at, s.rest[0]).None?)
    requires var u := Use(h, root, x, s.at, s.rest[0]); u.Some? && Incomparable(u.value, s.rest)
    ensures |s.rest| > 1 && End(h, root, x) == Slot(s.at, Use(h, root, x, s.at, s.rest[0]).value)
  {
    IncomparableAreLong(Use(h, root, x, s.at, s.rest[0]).value, s.rest);
    UsedEnd(h, root, x, s.at, s.rest[0]);
  }

  // ----- A chain while it grows -----

  lemma {:induction false} LastIsNew<Id>(known: set<Id>, h: Heap<Id>, cell: Cell<Id>, keys: Path, d: Id)
    requires Chain(known, h, cell, keys, Ref(d))
    ensures d !in known
    decreases |keys|
  {
    if keys != [] {
      LastIsNew(known + {cell.id}, h, h[cell.id][keys[0]], keys[1..], d);
    }
  }

  /** The last dictionary of a chain gets its key. */
  lemma {:induction false} ChainGrows<Id>(known: set<Id>, h: Heap<Id>, cell: Cell<Id>, keys: Path, d: Id, key: string, last: Cell<Id>, h': Heap<Id>)
    requires Chain(known, h, cell, keys, Ref(d)) && d in h && known <= h.Keys <= h'.Keys
    requires h'[d] == map[key := last] && (forall x :: x in h && x != d ==> h'[x] == h[x])
    requires last.Ref? ==> last.id !in h
    ensures Chain(known, h', cell, keys + [key], last)
    decreases |keys|
  {
    if keys == [] {
      assert [key][1..] == [] && ([] + [key]) == [key];
    } else {
      LastIsNew(known + {cell.id}, h, h[cell.id][keys[0]], keys[1..], d);
      ChainGrows(known + {cell.id}, h, h[cell.id][keys[0]], keys[1..], d, key, last, h');
      assert (keys + [key])[1..] == keys[1..] + [key];
    }
  }

  lemma PlantGrows<Id>(h: Heap<Id>, s: Slot<Id>, d: Id, h': Heap<Id>, key: string, last: Cell<Id>, h'': Heap<Id>)
    requires Planted(h, s, Ref(d), h') && d in h' && h'.Keys <= h''.Keys
    requires h''[d] == map[key := last] && (forall x :: x in h' && x != d ==> h''[x] == h'[x])
    requires last.Ref? ==> last.id !in h'
    ensures d !in h && Planted(h, Slot(s.at, s.rest + [key]), last, h'')
  {
    LastIsNew(h.Keys, h', h'[s.at][s.rest[0]], s.rest[1..], d);
    ChainGrows(h.Keys, h', h'[s.at][s.rest[0]], s.rest[1..], d, key, last, h'');
    assert (s.rest + [key])[1..] == s.rest[1..] + [key];
  }

  // ----- Copies -----

  ghost predicate Renamed<Id>(cells: map<string, Cell<Id>>, copied: map<string, Cell<Id>>, m: map<Id, Id>) {
    && copied.Keys == cells.Keys
    && (forall k :: k in cells && cells[k].Leaf? ==> copied[k] == cells[k])
    && (forall k :: k in cells && cells[k].Ref? ==> cells[k].id in m && copied[k] == Ref(m[cells[k].id]))
  }

  ghost predicate Injective<Id>(m: map<Id, Id>) {
    forall c, d :: c in m && d in m && c != d ==> m[c] != m[d]
  }

  /** The second heap is the first with other dictionaries for those that `m` names; what was shared still is. */
  ghost predicate Alike<Id>(h: Heap<Id>, g: Heap<Id>, m: map<Id, Id>) {
    Injective(m) && forall d :: d in m ==> d in h && m[d] in g && Renamed(h[d], g[m[d]], m)
  }

  lemma NextAlike<Id>(h: Heap<Id>, g: Heap<Id>, m: map<Id, Id>, at: Id, key: string)
    requires Alike(h, g, m) && at in m
    ensures match Next(h, at, key)
            case Some(d) => d in m && Next(g, m[at], key) == Some(m[d])
            case None => Next(g, m[at], key).None?
  {
    assert Renamed(h[at], g[m[at]], m);
  }

  /** A copy shows the same at every path. */
  lemma {:induction false} LookAlike<Id>(h: Heap<Id>, g: Heap<Id>, m: map<Id, Id>, at: Id, path: Path)
    requires Alike(h, g, m) && at in m
    ensures Look(g, m[at], path) == Look(h, at, path)
    decreases |path|
  {
    if path != [] {
      NextAlike(h, g, m, at, path[0]);
      assert Renamed(h[at], g[m[at]], m);
      if Next(h, at, path[0]).Some? {
        LookAlike(h, g, m, Next(h, at, path[0]).value, path[1..]);
      }
    }
  }

  lemma {:induction false} EndAlike<Id>(h: Heap<Id>, g: Heap<Id>, m: map<Id, Id>, at: Id, path: Path)
    requires Alike(h, g, m) && at in m && path != []
    ensures var s := End(h, at, path); s.at in m && End(g, m[at], path) == Slot(m[s.at], s.rest)
    decreases |path|
  {
    NextAlike(h, g, m, at, path[0]);
    if |path| > 1 && Next(h, at, path[0]).Some? {
      EndAlike(h, g, m, Next(h, at, path[0]).value, path[1..]);
    }
  }

  lemma {:induction false} UseAlike<Id>(h: Heap<Id>, g: Heap<Id>, m: map<Id, Id>, at: Id, path: Path, d: Id, key: string)
    requires Alike(h, g, m) && at in m && d in m
    ensures Use(g, m[at], path, m[d], key) == Use(h, at, path, d, key)
    decreases |path|
  {
    if path != [] {
      NextAlike(h, g, m, at, path[0]);
      if Next(h, at, path[0]).Some? {
        UseAlike(h, g, m, Next(h, at, path[0]).value, path[1..], d, key);
      }
    }
  }

  /** In a copy the same paths disturb each other. */
  lemma ClashAlike<Id>(h: Heap<Id>, g: Heap<Id>, m: map<Id, Id>, root: Id, p: Path, q: Path)
    requires Alike(h, g, m) && root in m && p != []
    ensures Disturbs(g, m[root], p, q) <==> Disturbs(h, root, p, q)
  {
    var s := End(h, root, p);
    EndAlike(h, g, m, root, p);
    UseAlike(h, g, m, root, q, s.at, s.rest[0]);
  }
}
