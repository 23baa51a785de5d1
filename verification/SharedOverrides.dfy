/**
 The override phase of app/config/runtime.py on configurations whose paths may share dictionaries: when
 every variable reads back, what every path shows then, and what it takes for the table of the program.
 */
module SharedOverrides {
  import opened Prelude
  import opened ConfigTree
  import opened EnvOverrides
  import opened SharedConfig

  /** One write after the other, with the heaps between them. */
  ghost predicate Phase<Id>(hs: seq<Heap<Id>>, root: Id, writes: seq<Write>)
    decreases |writes|
  {
    && |hs| == |writes| + 1
    && (writes != [] ==>
          && writes[0].path != [] && Wrote(hs[0], root, writes[0].path, writes[0].value, hs[1])
          && Phase(hs[1..], root, writes[1..]))
  }

  ghost predicate Starts<Id>(hs: seq<Heap<Id>>, root: Id, writes: seq<Write>) {
    Phase(hs, root, writes) && Closed(hs[0]) && root in hs[0] && forall w :: w in writes ==> Simple(w.path)
  }

  ghost function Last<Id>(hs: seq<Heap<Id>>): Heap<Id>
    requires hs != []
  {
    hs[|hs| - 1]
  }

  ghost predicate Writable(writes: seq<Write>) {
    forall w :: w in writes ==> w.path != []
  }

  /** No two of the writes clash in the configuration as it was loaded. */
  ghost predicate Peaceful<Id>(h: Heap<Id>, root: Id, writes: seq<Write>)
    requires Writable(writes)
  {
    forall i, j :: 0 <= i < j < |writes| ==> !Clash(h, root, writes[i].path, writes[j].path)
  }

  ghost predicate ReadsBack<Id>(h: Heap<Id>, root: Id, writes: seq<Write>) {
    forall w :: w in writes ==> Look(h, root, w.path) == Holding(w.value)
  }

  ghost predicate DistinctValues(writes: seq<Write>) {
    forall i, j :: 0 <= i < j < |writes| ==> writes[i].value != writes[j].value
  }

  lemma {:induction false} PhaseIsWritable<Id>(hs: seq<Heap<Id>>, root: Id, writes: seq<Write>)
    requires Phase(hs, root, writes)
    ensures Writable(writes)
    decreases |writes|
  {
    if writes != [] {
      PhaseIsWritable(hs[1..], root, writes[1..]);
    }
  }

  /** The rest of a phase is one. */
  lemma RestStarts<Id>(hs: seq<Heap<Id>>, root: Id, writes: seq<Write>)
    requires Starts(hs, root, writes) && writes != []
    ensures Starts(hs[1..], root, writes[1..]) && Writable(writes) && Last(hs[1..]) == Last(hs)
    ensures writes[0].path != [] && Simple(writes[0].path)
  {
    PhaseIsWritable(hs, root, writes);
  }

  /** Paths that the first write leaves alone disturb each other as before. */
  lemma ClashesStay<Id>(hs: seq<Heap<Id>>, root: Id, writes: seq<Write>, x: Path, y: Path)
    requires Starts(hs, root, writes) && writes != [] && Writable(writes) && x != []
    requires !Disturbs(hs[0], root, writes[0].path, x) && !Disturbs(hs[0], root, writes[0].path, y)
    ensures Disturbs(hs[1], root, x, y) <==> Disturbs(hs[0], root, x, y)
  {
    UndisturbedKeepTheirClashes(hs[0], root, writes[0].path, writes[0].value, hs[1], x, y);
  }

  lemma RestIsPeaceful<Id>(hs: seq<Heap<Id>>, root: Id, writes: seq<Write>)
    requires Starts(hs, root, writes) && writes != [] && Writable(writes)
    requires forall i :: 0 < i < |writes| ==> !Clash(hs[0], root, writes[0].path, writes[i].path)
    ensures Peaceful(hs[1], root, writes[1..]) <==> Peaceful(hs[0], root, writes)
  {
    var rest := writes[1..];
    forall i, j | 0 <= i < j < |rest|
      ensures Clash(hs[1], root, rest[i].path, rest[j].path)
              <==> Clash(hs[0], root, writes[i + 1].path, writes[j + 1].path)
    {
      ClashesStay(hs, root, writes, rest[i].path, rest[j].path);
      ClashesStay(hs, root, writes, rest[j].path, rest[i].path);
    }
    if Peaceful(hs[1], root, rest) {
      forall i, j | 0 <= i < j < |writes| ensures !Clash(hs[0], root, writes[i].path, writes[j].path) {
        if i > 0 {
          assert !Clash(hs[1], root, rest[i - 1].path, rest[j - 1].path);
        }
      }
    }
  }

  // ----- What becomes of a path -----

  /** A path that no write disturbs is seen as it was. */
  lemma {:induction false} KeptAlong<Id>(hs: seq<Heap<Id>>, root: Id, writes: seq<Write>, path: Path)
    requires Starts(hs, root, writes) && Writable(writes) && Peaceful(hs[0], root, writes)
    requires forall w :: w in writes ==> !Disturbs(hs[0], root, w.path, path)
    ensures Look(Last(hs), root, path) == Look(hs[0], root, path)
    decreases |writes|
  {
    if writes != [] {
      RestStarts(hs, root, writes);
      RestIsPeaceful(hs, root, writes);
      UndisturbedIsKept(hs[0], root, writes[0].path, writes[0].value, hs[1], path);
      forall w | w in writes[1..] ensures !Disturbs(hs[1], root, w.path, path) {
        var i :| 0 < i < |writes| && writes[i] == w;
        assert !Clash(hs[0], root, writes[0].path, writes[i].path);
        ClashesStay(hs, root, writes, w.path, path);
      }
      KeptAlong(hs[1..], root, writes[1..], path);
    }
  }

  /** A value that is not seen, and that no write brings, is never seen again. */
  lemma {:induction false} StaysLost<Id>(hs: seq<Heap<Id>>, root: Id, writes: seq<Write>, path: Path, value: Json)
    requires Starts(hs, root, writes) && Look(hs[0], root, path) != Holding(value)
    requires forall w :: w in writes ==> w.value != value
    ensures Look(Last(hs), root, path) != Holding(value)
    decreases |writes|
  {
    if writes != [] {
      RestStarts(hs, root, writes);
      FollowAfter(hs[0], End(hs[0], root, writes[0].path), writes[0].value, hs[1], root, path);
      StaysLost(hs[1..], root, writes[1..], path, value);
    }
  }

  /** A path that one of the writes disturbs loses its value. */
  lemma {:induction false} LostAlong<Id>(hs: seq<Heap<Id>>, root: Id, writes: seq<Write>, path: Path, value: Json, k: nat)
    requires Starts(hs, root, writes) && Writable(writes) && Peaceful(hs[0], root, writes)
    requires k < |writes| && Disturbs(hs[0], root, writes[k].path, path)
    requires forall w :: w in writes ==> w.value != value
    ensures Look(Last(hs), root, path) != Holding(value)
    decreases |writes|
  {
    RestStarts(hs, root, writes);
    RestIsPeaceful(hs, root, writes);
    if Disturbs(hs[0], root, writes[0].path, path) {
      FollowAfter(hs[0], End(hs[0], root, writes[0].path), writes[0].value, hs[1], root, path);
      StaysLost(hs[1..], root, writes[1..], path, value);
    } else {
      assert !Clash(hs[0], root, writes[0].path, writes[k].path);
      ClashesStay(hs, root, writes, writes[k].path, path);
      LostAlong(hs[1..], root, writes[1..], path, value, k - 1);
    }
  }

  // ----- When every write reads back -----

  lemma {:induction false} PeacefulReadsBack<Id>(hs: seq<Heap<Id>>, root: Id, writes: seq<Write>)
    requires Starts(hs, root, writes) && Writable(writes) && Peaceful(hs[0], root, writes)
    ensures ReadsBack(Last(hs), root, writes)
    decreases |writes|
  {
    if writes != [] {
      var w := writes[0];
      RestStarts(hs, root, writes);
      RestIsPeaceful(hs, root, writes);
      PeacefulReadsBack(hs[1..], root, writes[1..]);
      ReadsBackIff(hs[0], root, w.path, w.value, hs[1]);
      forall x | x in writes[1..] ensures !Disturbs(hs[1], root, x.path, w.path) {
        var i :| 0 < i < |writes| && writes[i] == x;
        PairClash(hs[0], root, w.path, w.value, hs[1], writes[i].path);
      }
      KeptAlong(hs[1..], root, writes[1..], w.path);
    }
  }

  lemma {:induction false} ReadingBackIsPeaceful<Id>(hs: seq<Heap<Id>>, root: Id, writes: seq<Write>)
    requires Starts(hs, root, writes) && Writable(writes) && DistinctValues(writes)
    requires ReadsBack(Last(hs), root, writes)
    ensures Peaceful(hs[0], root, writes)
    decreases |writes|
  {
    if writes != [] {
      var w, rest := writes[0], writes[1..];
      RestStarts(hs, root, writes);
      ReadingBackIsPeaceful(hs[1..], root, rest);
      forall i | 0 < i < |writes| ensures !Clash(hs[0], root, w.path, writes[i].path) {
        assert rest[i - 1] == writes[i];
        if Disturbs(hs[1], root, rest[i - 1].path, w.path) {
          LostAlong(hs[1..], root, rest, w.path, w.value, i - 1);
          assert false;
        }
        PairClash(hs[0], root, w.path, w.value, hs[1], writes[i].path);
      }
      RestIsPeaceful(hs, root, writes);
    }
  }

  /** Different values all read back exactly when no two of the paths clash in the loaded configuration. */
  lemma PhaseReadsBackIff<Id>(hs: seq<Heap<Id>>, root: Id, writes: seq<Write>)
    requires Starts(hs, root, writes) && Writable(writes) && DistinctValues(writes)
    ensures ReadsBack(Last(hs), root, writes) <==> Peaceful(hs[0], root, writes)
  {
    if Peaceful(hs[0], root, writes) {
      PeacefulReadsBack(hs, root, writes);
    }
    if ReadsBack(Last(hs), root, writes) {
      ReadingBackIsPeaceful(hs, root, writes);
    }
  }

  // ----- What every path shows in the end -----

  lemma {:induction false} FollowOn<Id>(h: Heap<Id>, at: Id, path: Path, i: nat)
    requires i <= |path| && Follow(h, at, path[..i]).Some? && Follow(h, at, path[..i]).value.Ref?
    ensures Follow(h, at, path) == Follow(h, Follow(h, at, path[..i]).value.id, path[i..])
    decreases |path|
  {
    if i > 0 {
      assert path[..i][1..] == path[1..][..i - 1];
      FollowOn(h, Next(h, at, path[0]).value, path[1..], i - 1);
    }
  }

  /** The part of a path before its first use of a key leads to that key's dictionary. */
  lemma {:induction false} BeforeUse<Id>(h: Heap<Id>, at: Id, path: Path, d: Id, key: string)
    requires Use(h, at, path, d, key).Some?
    ensures var i := |path| - |Use(h, at, path, d, key).value|;
            Follow(h, at, path[..i]) == Some(Ref(d)) && path[i..] == Use(h, at, path, d, key).value
    decreases |path|
  {
    if !(at == d && path[0] == key) {
      BeforeUse(h, Next(h, at, path[0]).value, path[1..], d, key);
      var i := |path| - |Use(h, at, path, d, key).value|;
      assert path[..i][1..] == path[1..][..i - 1];
    }
  }

  /** A key that is asked for on the way to a dictionary is asked for before, and holds a dictionary. */
  lemma {:induction false} UseOnTheWay<Id>(h: Heap<Id>, at: Id, path: Path, i: nat, d: Id, key: string)
    requires i <= |path| && Follow(h, at, path[..i]).Some? && Follow(h, at, path[..i]).value.Ref?
    requires Use(h, at, path[..i], d, key).Some?
    ensures Use(h, at, path, d, key).Some? && |Use(h, at, path, d, key).value| > |path| - i && Next(h, d, key).Some?
    decreases |path|
  {
    assert path[..i] != [];
    if !(at == d && path[0] == key) {
      assert path[..i][1..] == path[1..][..i - 1];
      UseOnTheWay(h, Next(h, at, path[0]).value, path[1..], i - 1, d, key);
    }
  }

  ghost predicate Untouched<Id>(h: Heap<Id>, root: Id, writes: seq<Write>, path: Path)
    requires Writable(writes)
  {
    forall w :: w in writes ==>
      var s := End(h, root, w.path); Use(h, root, path, s.at, s.rest[0]).None?
  }

  /** A path that comes to none of the changed keys leads where it did. */
  lemma {:induction false} UntouchedAlong<Id>(hs: seq<Heap<Id>>, root: Id, writes: seq<Write>, path: Path)
    requires Starts(hs, root, writes) && Writable(writes) && Untouched(hs[0], root, writes, path)
    ensures Follow(Last(hs), root, path) == Follow(hs[0], root, path)
    decreases |writes|
  {
    if writes != [] {
      var p, v := writes[0].path, writes[0].value;
      RestStarts(hs, root, writes);
      FollowAfter(hs[0], End(hs[0], root, p), v, hs[1], root, path);
      forall w | w in writes[1..]
        ensures var s := End(hs[1], root, w.path); Use(hs[1], root, path, s.at, s.rest[0]).None?
      {
        StaysUntouched(hs[0], root, p, v, hs[1], w.path, path);
      }
      UntouchedAlong(hs[1..], root, writes[1..], path);
    }
  }

  lemma StaysUntouched<Id>(h: Heap<Id>, root: Id, p: Path, v: Json, h': Heap<Id>, q: Path, path: Path)
    requires Closed(h) && root in h && p != [] && q != [] && Wrote(h, root, p, v, h')
    requires var s := End(h, root, p); Use(h, root, path, s.at, s.rest[0]).None?
    requires var s := End(h, root, q); Use(h, root, path, s.at, s.rest[0]).None?
    ensures var s := End(h', root, q); Use(h', root, path, s.at, s.rest[0]).None?
  {
    var s, e := End(h, root, p), End(h', root, q);
    EndAfter(h, s, v, h', root, q);
    var u := Use(h, root, q, s.at, s.rest[0]);
    if u.Some? {
      MeetAtSlot(h, s, v, h', u.value, s.rest);
    } else {
      EndInHeap(h, root, q);
    }
    if e.at in h {
      UseAfter(h, s, v, h', root, path, e.at, e.rest[0]);
    } else {
      UseOfNew(h, s, v, h', root, path, e.at, e.rest[0]);
    }
  }

  /** Where a value stands, paths along it and through it show what they would show below a write of it. */
  lemma {:induction false} SeenBelow<Id>(h: Heap<Id>, at: Id, rest: Path, value: Json, tail: Path)
    requires Look(h, at, rest) == Holding(value) && !Incomparable(tail, rest)
    ensures Look(h, at, tail) == Below(rest, tail, value)
    decreases |rest|
  {
    if tail != [] {
      assert rest == [rest[0]] + rest[1..] && tail == [tail[0]] + tail[1..];
      assert tail[0] == rest[0];
      if Next(h, at, rest[0]).Some? {
        SeenBelow(h, Next(h, at, rest[0]).value, rest[1..], value, tail[1..]);
      }
    }
  }

  /** The write that disturbs a path, none doing so nearer to its start. */
  ghost predicate DisturbsFirst<Id>(h: Heap<Id>, root: Id, writes: seq<Write>, w: Write, path: Path)
    requires Writable(writes)
  {
    && w in writes && Disturbs(h, root, w.path, path)
    && forall x :: x in writes && Disturbs(h, root, x.path, path) ==> |Tail(h, root, x, path)| <= |Tail(h, root, w, path)|
  }

  ghost function Tail<Id>(h: Heap<Id>, root: Id, w: Write, path: Path): Path
    requires w.path != [] && Disturbs(h, root, w.path, path)
  {
    var s := End(h, root, w.path);
    Use(h, root, path, s.at, s.rest[0]).value
  }

  lemma OneKeyMeets<Id>(h: Heap<Id>, root: Id, p: Path, path: Path)
    requires p != []
    requires var s := End(h, root, p); |s.rest| == 1 && Use(h, root, path, s.at, s.rest[0]).Some?
    ensures Disturbs(h, root, p, path)
  {
    var s := End(h, root, p);
    assert s.rest == [s.rest[0]] && s.rest <= Use(h, root, path, s.at, s.rest[0]).value;
  }

  /** Up to the first place where it is disturbed, a path is untouched. */
  lemma UntouchedBefore<Id>(h: Heap<Id>, root: Id, writes: seq<Write>, path: Path, i: nat)
    requires Writable(writes) && i <= |path| && Follow(h, root, path[..i]).Some? && Follow(h, root, path[..i]).value.Ref?
    requires forall x :: x in writes && Disturbs(h, root, x.path, path) ==> |Tail(h, root, x, path)| <= |path| - i
    ensures Untouched(h, root, writes, path[..i])
  {
    forall x | x in writes
      ensures var s := End(h, root, x.path); Use(h, root, path[..i], s.at, s.rest[0]).None?
    {
      var s := End(h, root, x.path);
      if Use(h, root, path[..i], s.at, s.rest[0]).Some? {
        UseOnTheWay(h, root, path, i, s.at, s.rest[0]);
        OneKeyMeets(h, root, x.path, path);
      }
    }
  }

  /** The dictionary that a disturbed path and the path of the write share leads both on as in the beginning. */
  lemma SharedDictionaryStays<Id>(hs: seq<Heap<Id>>, root: Id, writes: seq<Write>, w: Write, path: Path, i: nat)
    requires Starts(hs, root, writes) && Writable(writes) && w in writes
    requires var s := End(hs[0], root, w.path);
             && Use(hs[0], root, path, s.at, s.rest[0]).Some?
             && i == |path| - |Use(hs[0], root, path, s.at, s.rest[0]).value|
    requires forall x :: x in writes && Disturbs(hs[0], root, x.path, path) ==> |Tail(hs[0], root, x, path)| <= |path| - i
    ensures Look(Last(hs), root, path) == Look(Last(hs), End(hs[0], root, w.path).at, path[i..])
  {
    var s := End(hs[0], root, w.path);
    BeforeUse(hs[0], root, path, s.at, s.rest[0]);
    UntouchedBefore(hs[0], root, writes, path, i);
    UntouchedAlong(hs, root, writes, path[..i]);
    FollowOn(Last(hs), root, path, i);
  }

  lemma OwnPathLast<Id>(h: Heap<Id>, root: Id, writes: seq<Write>, w: Write)
    requires Writable(writes) && Peaceful(h, root, writes) && w in writes && Simple(w.path)
    ensures forall x :: x in writes && Disturbs(h, root, x.path, w.path) ==>
              |Tail(h, root, x, w.path)| <= |End(h, root, w.path).rest|
  {
    SimpleUsesEnd(h, root, w.path);
    forall x | x in writes && x != w ensures !Disturbs(h, root, x.path, w.path) {
      PeacefulPair(h, root, writes, x, w);
    }
  }

  lemma PeacefulPair<Id>(h: Heap<Id>, root: Id, writes: seq<Write>, v: Write, w: Write)
    requires Writable(writes) && Peaceful(h, root, writes) && v in writes && w in writes && v != w
    ensures !Clash(h, root, v.path, w.path)
  {
    var i :| 0 <= i < |writes| && writes[i] == v;
    var j :| 0 <= j < |writes| && writes[j] == w;
    assert i < j ==> !Clash(h, root, writes[i].path, writes[j].path);
    assert j < i ==> !Clash(h, root, writes[j].path, writes[i].path);
  }

  /** What a disturbed path shows in the end is decided by the loaded configuration. */
  lemma DisturbedShows<Id>(hs: seq<Heap<Id>>, root: Id, writes: seq<Write>, w: Write, path: Path)
    requires Starts(hs, root, writes) && Writable(writes) && Peaceful(hs[0], root, writes)
    requires DisturbsFirst(hs[0], root, writes, w, path)
    ensures Look(Last(hs), root, path) == Below(End(hs[0], root, w.path).rest, Tail(hs[0], root, w, path), w.value)
  {
    var s, t := End(hs[0], root, w.path), Tail(hs[0], root, w, path);
    SharedDictionaryStays(hs, root, writes, w, path, |path| - |t|);
    BeforeUse(hs[0], root, path, s.at, s.rest[0]);
    SimpleUsesEnd(hs[0], root, w.path);
    OwnPathLast(hs[0], root, writes, w);
    SharedDictionaryStays(hs, root, writes, w, w.path, |w.path| - |s.rest|);
    BeforeUse(hs[0], root, w.path, s.at, s.rest[0]);
    PeacefulReadsBack(hs, root, writes);
    SeenBelow(Last(hs), s.at, s.rest, w.value, t);
  }

  lemma {:induction false} SomeDisturbsFirst<Id>(h: Heap<Id>, root: Id, writes: seq<Write>, path: Path) returns (w: Write)
    requires Writable(writes) && exists x :: x in writes && Disturbs(h, root, x.path, path)
    ensures DisturbsFirst(h, root, writes, w, path)
    decreases |writes|
  {
    var rest := writes[1..];
    if exists x :: x in rest && Disturbs(h, root, x.path, path) {
      w := SomeDisturbsFirst(h, root, rest, path);
      var x := writes[0];
      if Disturbs(h, root, x.path, path) && |Tail(h, root, x, path)| > |Tail(h, root, w, path)| {
        w := x;
      }
    } else {
      w := writes[0];
    }
  }

  /** The order does not matter: the same writes in any two orders leave every path with the same sight. */
  lemma OrderDoesNotMatter<Id>(hs: seq<Heap<Id>>, gs: seq<Heap<Id>>, root: Id, xs: seq<Write>, ys: seq<Write>, path: Path)
    requires Starts(hs, root, xs) && Starts(gs, root, ys) && gs[0] == hs[0]
    requires multiset(xs) == multiset(ys) && Writable(xs) && Peaceful(hs[0], root, xs)
    ensures Look(Last(gs), root, path) == Look(Last(hs), root, path)
  {
    forall w ensures w in xs <==> w in ys {
      assert w in multiset(xs) <==> w in multiset(ys);
    }
    PeacefulInAnyOrder(hs[0], root, xs, ys);
    if exists w :: w in xs && Disturbs(hs[0], root, w.path, path) {
      var w := SomeDisturbsFirst(hs[0], root, xs, path);
      DisturbedShows(hs, root, xs, w, path);
      DisturbedShows(gs, root, ys, w, path);
    } else {
      KeptAlong(hs, root, xs, path);
      KeptAlong(gs, root, ys, path);
    }
  }

  lemma PeacefulInAnyOrder<Id>(h: Heap<Id>, root: Id, xs: seq<Write>, ys: seq<Write>)
    requires Writable(xs) && Peaceful(h, root, xs) && multiset(xs) == multiset(ys)
    requires forall w :: w in xs <==> w in ys
    ensures Writable(ys) && Peaceful(h, root, ys)
  {
    forall i, j | 0 <= i < j < |ys| ensures !Clash(h, root, ys[i].path, ys[j].path) {
      TwoPlaces(ys, xs, i, j);
      var k, l :| 0 <= k < |xs| && 0 <= l < |xs| && k != l && xs[k] == ys[i] && xs[l] == ys[j];
      assert k < l ==> !Clash(h, root, xs[k].path, xs[l].path);
      assert l < k ==> !Clash(h, root, xs[l].path, xs[k].path);
    }
  }

  /** Two elements of a sequence are two elements of every arrangement of it. */
  lemma TwoPlaces<T>(ys: seq<T>, xs: seq<T>, i: nat, j: nat)
    requires i < j < |ys| && multiset(xs) == multiset(ys)
    ensures exists k, l :: 0 <= k < |xs| && 0 <= l < |xs| && k != l && xs[k] == ys[i] && xs[l] == ys[j]
  {
    assert ys[i] in multiset(xs);
    var k :| 0 <= k < |xs| && xs[k] == ys[i];
    WithoutPlace(xs, k);
    WithoutPlace(ys, i);
    var rest := ys[..i] + ys[i + 1..];
    assert rest[j - 1] == ys[j];
    assert ys[j] in multiset(xs[..k] + xs[k + 1..]);
    var l :| 0 <= l < |xs| - 1 && (xs[..k] + xs[k + 1..])[l] == ys[j];
    var m := if l < k then l else l + 1;
    assert xs[m] == ys[j] && m != k;
  }

  lemma WithoutPlace<T>(s: seq<T>, i: nat)
    requires i < |s|
    ensures multiset(s[..i] + s[i + 1..]) == multiset(s) - multiset{s[i]}
  {
    SplitAt(s, i);
  }

  lemma CountedTwice<T>(s: seq<T>, i: nat, j: nat)
    requires i < j < |s| && s[i] == s[j]
    ensures multiset(s)[s[i]] > 1
  {
    WithoutPlace(s, i);
    assert (s[..i] + s[i + 1..])[j - 1] == s[j];
    assert s[j] in multiset(s[..i] + s[i + 1..]);
  }

  // ----- Where nothing can clash -----

  /** Two different paths lead to one dictionary. */
  ghost predicate Shared<Id>(h: Heap<Id>, root: Id, p: Path, q: Path) {
    p != q && Follow(h, root, p) == Follow(h, root, q) && Follow(h, root, p).Some? && Follow(h, root, p).value.Ref?
  }

  /** The part of the written path before the changed key, and the part of the other before it comes there. */
  lemma MeetingPlace<Id>(h: Heap<Id>, root: Id, p: Path, x: Path) returns (i: nat, j: nat)
    requires p != [] && Simple(p) && Disturbs(h, root, p, x)
    ensures i < |p| && j < |x| && p[i..] == End(h, root, p).rest
    ensures var s := End(h, root, p);
            && Follow(h, root, p[..i]) == Some(Ref(s.at)) && Follow(h, root, x[..j]) == Some(Ref(s.at))
            && Use(h, root, x, s.at, s.rest[0]) == Some(x[j..])
  {
    var s := End(h, root, p);
    i := LeadsToEnd(h, root, p);
    BeforeUse(h, root, x, s.at, s.rest[0]);
    j := |x| - |Use(h, root, x, s.at, s.rest[0]).value|;
  }

  lemma LeadsToEnd<Id>(h: Heap<Id>, root: Id, p: Path) returns (i: nat)
    requires p != [] && Simple(p)
    ensures i < |p| && p[i..] == End(h, root, p).rest && Follow(h, root, p[..i]) == Some(Ref(End(h, root, p).at))
  {
    var s := End(h, root, p);
    SimpleUsesEnd(h, root, p);
    BeforeUse(h, root, p, s.at, s.rest[0]);
    i := |p| - |s.rest|;
  }

  lemma SameStart(p: Path, i: nat, x: Path, j: nat, value: Json)
    requires i <= |p| && j <= |x| && p[..i] == x[..j] && !Incomparable(x[j..], p[i..])
    ensures !Incomparable(x, p) && Below(p, x, value) == Below(p[i..], x[j..], value)
  {
    assert i == j && p == p[..i] + p[i..] && x == p[..i] + x[j..];
    assert p == x <==> p[i..] == x[j..];
    assert x[j..] <= p[i..] ==> x <= p;
    assert p[i..] <= x[j..] ==> p <= x;
    assert x <= p && p[i..] <= x[j..] ==> p == x;
  }

  /** Of two paths that do not lead through each other, one disturbs the other only through a shared dictionary. */
  lemma DisturbingIsSharing<Id>(h: Heap<Id>, root: Id, p: Path, q: Path)
    requires p != [] && Simple(p) && Incomparable(p, q) && Disturbs(h, root, p, q)
    ensures exists i, j :: 0 <= i < |p| && 0 <= j < |q| && Shared(h, root, p[..i], q[..j])
  {
    var i, j := MeetingPlace(h, root, p, q);
    if p[..i] == q[..j] {
      SameStart(p, i, q, j, Null);
      assert false;
    }
    assert Shared(h, root, p[..i], q[..j]);
  }

  // ----- Where nothing is shared, the configuration is a tree of values -----

  ghost predicate Unshared<Id>(h: Heap<Id>, root: Id) {
    forall p, q :: !Shared(h, root, p, q)
  }

  function SightOf(found: Option<Json>): Sight {
    if found.None? then Absent else if found.value.Obj? then Section else Holding(found.value)
  }

  /** Every path of the heap shows what it shows in the tree of values. */
  ghost predicate Unfolds<Id>(h: Heap<Id>, root: Id, fields: map<string, Json>) {
    forall path: Path :: Look(h, root, path) == SightOf(Lookup(Obj(fields), path))
  }

  lemma UnsharedIsPeaceful<Id>(h: Heap<Id>, root: Id, writes: seq<Write>)
    requires Unshared(h, root) && PrefixFree(multiset(writes)) && forall w :: w in writes ==> Simple(w.path)
    ensures Writable(writes) && Peaceful(h, root, writes)
  {
    forall w | w in writes ensures w.path != [] {
      assert w in multiset(writes);
    }
    forall i, j | 0 <= i < j < |writes| ensures !Clash(h, root, writes[i].path, writes[j].path) {
      if writes[i] == writes[j] {
        CountedTwice(writes, i, j);
        assert false;
      }
      UnsharedDoNotClash(h, root, writes, writes[i], writes[j]);
    }
  }

  lemma UnsharedDoNotClash<Id>(h: Heap<Id>, root: Id, writes: seq<Write>, v: Write, w: Write)
    requires Unshared(h, root) && PrefixFree(multiset(writes)) && v in writes && w in writes && v != w
    requires Simple(v.path) && Simple(w.path)
    ensures v.path != [] && w.path != [] && !Clash(h, root, v.path, w.path)
  {
    assert v in multiset(writes) && w in multiset(writes);
    if Disturbs(h, root, v.path, w.path) {
      DisturbingIsSharing(h, root, v.path, w.path);
    }
    if Disturbs(h, root, w.path, v.path) {
      DisturbingIsSharing(h, root, w.path, v.path);
    }
  }

  lemma {:induction false} LookupBelow(j: Json, path: Path, value: Json, x: Path)
    requires Lookup(j, path) == Some(value) && !value.Obj? && !Incomparable(x, path)
    ensures SightOf(Lookup(j, x)) == Below(path, x, value)
    decreases |path|
  {
    if x == [] {
    } else if path == [] {
      assert Lookup(j, x).None?;
    } else {
      assert path == [path[0]] + path[1..] && x == [x[0]] + x[1..];
      assert x[0] == path[0];
      LookupBelow(j.fields[path[0]], path[1..], value, x[1..]);
    }
  }

  /** Along the path of a write there is a section, until the write is met. */
  lemma {:induction false} AlongPath<Id>(h: Heap<Id>, at: Id, p: Path, x: Path)
    requires p != [] && !Incomparable(x, p)
    requires var e := End(h, at, p); Use(h, at, p, e.at, e.rest[0]) == Some(e.rest)
    ensures Look(h, at, x) == Section || Meets(h, at, x, End(h, at, p))
    decreases |p|
  {
    if x != [] {
      assert p == [p[0]] + p[1..] && x == [x[0]] + x[1..];
      assert x[0] == p[0];
      if |p| > 1 && Next(h, at, p[0]).Some? {
        AlongPath(h, Next(h, at, p[0]).value, p[1..], x[1..]);
      }
    }
  }

  /** Without sharing, what a disturbed path shows is what it shows in the tree. */
  lemma DisturbedInTree<Id>(hs: seq<Heap<Id>>, root: Id, fields: map<string, Json>, writes: seq<Write>, w: Write, path: Path)
    requires Starts(hs, root, writes) && Writable(writes) && Peaceful(hs[0], root, writes)
    requires Unshared(hs[0], root) && PrefixFree(multiset(writes)) && DisturbsFirst(hs[0], root, writes, w, path)
    requires !w.value.Obj?
    ensures Look(Last(hs), root, path) == SightOf(Lookup(Obj(SetAll(fields, writes)), path))
  {
    DisturbedShows(hs, root, writes, w, path);
    UnsharedMeet(hs[0], root, w.path, path, w.value);
    WritesReadBack(fields, writes, w);
    LookupBelow(Obj(SetAll(fields, writes)), w.path, w.value, path);
  }

  lemma UnsharedMeet<Id>(h: Heap<Id>, root: Id, p: Path, x: Path, value: Json)
    requires Unshared(h, root) && p != [] && Simple(p) && Disturbs(h, root, p, x)
    ensures !Incomparable(x, p)
    ensures var s := End(h, root, p); Below(p, x, value) == Below(s.rest, Use(h, root, x, s.at, s.rest[0]).value, value)
  {
    var i, j := MeetingPlace(h, root, p, x);
    assert !Shared(h, root, p[..i], x[..j]);
    SameStart(p, i, x, j, value);
  }

  lemma UndisturbedInTree<Id>(hs: seq<Heap<Id>>, root: Id, fields: map<string, Json>, writes: seq<Write>, path: Path)
    requires Starts(hs, root, writes) && Writable(writes) && Peaceful(hs[0], root, writes)
    requires PrefixFree(multiset(writes)) && Unfolds(hs[0], root, fields)
    requires forall w :: w in writes ==> !w.value.Obj? && !Disturbs(hs[0], root, w.path, path)
    ensures Look(Last(hs), root, path) == SightOf(Lookup(Obj(SetAll(fields, writes)), path))
  {
    KeptAlong(hs, root, writes, path);
    if path == [] {
    } else if w :| w in writes && !Incomparable(path, w.path) {
      SimpleUsesEnd(hs[0], root, w.path);
      AlongPath(hs[0], root, w.path, path);
      WritesReadBack(fields, writes, w);
      LookupBelow(Obj(SetAll(fields, writes)), w.path, w.value, path);
      WrittenOrBefore(hs[0], root, w.path, path);
    } else {
      forall w | w in writes ensures w.path != [] && Incomparable(w.path, path) {
        assert Incomparable(path, w.path);
      }
      UnrelatedPathsKept(fields, writes, path);
    }
  }

  lemma WrittenOrBefore<Id>(h: Heap<Id>, root: Id, p: Path, x: Path)
    requires p != [] && Simple(p) && !Incomparable(x, p) && !Disturbs(h, root, p, x)
    ensures x <= p && x != p
  {
    SimpleUsesEnd(h, root, p);
    if p <= x {
      Reaches(h, root, p, x);
    }
  }

  lemma {:induction false} Reaches<Id>(h: Heap<Id>, at: Id, p: Path, x: Path)
    requires p != [] && p <= x
    requires var e := End(h, at, p); Use(h, at, p, e.at, e.rest[0]) == Some(e.rest)
    ensures Meets(h, at, x, End(h, at, p))
    decreases |p|
  {
    assert p == [p[0]] + p[1..] && x == [x[0]] + x[1..];
    if |p| > 1 && Next(h, at, p[0]).Some? {
      Reaches(h, Next(h, at, p[0]).value, p[1..], x[1..]);
    }
  }

  /** Where no dictionary is shared, the phase in place does what it does to the tree of values. */
  lemma UnsharedPhaseIsOnTrees<Id>(hs: seq<Heap<Id>>, root: Id, fields: map<string, Json>, writes: seq<Write>)
    requires Starts(hs, root, writes) && Unshared(hs[0], root) && Unfolds(hs[0], root, fields)
    requires PrefixFree(multiset(writes)) && forall w :: w in writes ==> !w.value.Obj?
    ensures Unfolds(Last(hs), root, SetAll(fields, writes))
  {
    UnsharedIsPeaceful(hs[0], root, writes);
    forall path: Path ensures Look(Last(hs), root, path) == SightOf(Lookup(Obj(SetAll(fields, writes)), path)) {
      if exists w :: w in writes && Disturbs(hs[0], root, w.path, path) {
        var w := SomeDisturbsFirst(hs[0], root, writes, path);
        DisturbedInTree(hs, root, fields, writes, w, path);
      } else {
        UndisturbedInTree(hs, root, fields, writes, path);
      }
    }
  }

  // ----- The table of the program -----

  /** Two paths that write the same key of one section, under two names. */
  ghost predicate OneSection<Id>(h: Heap<Id>, root: Id, p: Path, q: Path) {
    && |p| == 2 && |q| == 2 && p[1] == q[1]
    && Next(h, root, p[0]).Some? && Next(h, root, p[0]) == Next(h, root, q[0])
  }

  /** Paths of at most two keys, none of them both a section and a key of one. */
  predicate TwoLevels(p: Path, q: Path) {
    && 1 <= |p| <= 2 && 1 <= |q| <= 2
    && (|p| == 2 ==> p[0] != p[1] && p[1] != q[0])
    && (|q| == 2 ==> q[0] != q[1] && q[1] != p[0])
  }

  lemma ShortEnd<Id>(h: Heap<Id>, root: Id, p: Path)
    requires 1 <= |p| <= 2
    ensures End(h, root, p)
            == if |p| == 2 && Next(h, root, p[0]).Some? then Slot(Next(h, root, p[0]).value, [p[1]]) else Slot(root, p)
  {
    if |p| == 2 && Next(h, root, p[0]).Some? {
      assert p[1..] == [p[1]];
      assert End(h, root, p) == End(h, Next(h, root, p[0]).value, p[1..]);
    }
  }

  lemma ShortUse<Id>(h: Heap<Id>, root: Id, q: Path, d: Id, key: string)
    requires 1 <= |q| <= 2
    ensures Use(h, root, q, d, key)
            == if root == d && q[0] == key then Some(q)
               else if |q| == 2 && Next(h, root, q[0]) == Some(d) && q[1] == key then Some([q[1]])
               else None
  {
    if !(root == d && q[0] == key) && Next(h, root, q[0]).Some? {
      var next := Next(h, root, q[0]).value;
      assert Use(h, root, q, d, key) == Use(h, next, q[1..], d, key);
      if |q| == 2 {
        assert q[1..] == [q[1]];
        if !(next == d && q[1] == key) && Next(h, next, q[1]).Some? {
          assert Use(h, next, q[1..], d, key) == Use(h, Next(h, next, q[1]).value, q[1..][1..], d, key);
        }
      }
    }
  }

  lemma ShortPathDisturbsIff<Id>(h: Heap<Id>, root: Id, p: Path, q: Path)
    requires TwoLevels(p, q) && Incomparable(p, q)
    ensures Disturbs(h, root, p, q) <==> OneSection(h, root, p, q)
  {
    var s := End(h, root, p);
    ShortEnd(h, root, p);
    ShortUse(h, root, q, s.at, s.rest[0]);
    assert q[0] == p[0] ==> |p| == 2 && |q| == 2 && p == [p[0], p[1]] && q == [q[0], q[1]];
  }

  const TMDB_KEY := "SMART_MEDIA_TMDB_API_KEY"
  const EMBY_KEY := "SMART_MEDIA_EMBY_API_KEY"
  const SECURITY_KEY := "SMART_MEDIA_SECURITY_API_KEY"

  predicate IsSet(env: map<string, string>, name: string) {
    name in env && env[name] != ""
  }

  /** Two sections of the configuration are one dictionary. */
  ghost predicate SameDictionary<Id>(h: Heap<Id>, root: Id, a: string, b: string) {
    Next(h, root, a).Some? && Next(h, root, a) == Next(h, root, b)
  }

  /** No two sections that get an `api_key` from the environment are one dictionary. */
  ghost predicate SectionsApart<Id>(h: Heap<Id>, root: Id, env: map<string, string>) {
    && !(IsSet(env, TMDB_KEY) && IsSet(env, EMBY_KEY) && SameDictionary(h, root, "tmdb", "emby"))
    && !(IsSet(env, TMDB_KEY) && IsSet(env, SECURITY_KEY) && SameDictionary(h, root, "tmdb", "security"))
    && !(IsSet(env, EMBY_KEY) && IsSet(env, SECURITY_KEY) && SameDictionary(h, root, "emby", "security"))
  }

  lemma TablePathsHaveTwoLevels()
    ensures forall i, j :: 0 <= i < j < |ENV_OVERRIDE_MAP| ==> TwoLevels(ENV_OVERRIDE_MAP[i].1, ENV_OVERRIDE_MAP[j].1)
  {
  }

  lemma TablePathsAreSimple()
    ensures forall i :: 0 <= i < |ENV_OVERRIDE_MAP| ==> Simple(ENV_OVERRIDE_MAP[i].1)
  {
  }

  /** Only `api_key` is a key of more than one section: of those in rows 2, 6 and 14. */
  lemma OnlyApiKeysRepeat(i: nat, j: nat)
    requires i < j < |ENV_OVERRIDE_MAP|
    requires var p, q := ENV_OVERRIDE_MAP[i].1, ENV_OVERRIDE_MAP[j].1; |p| == 2 && |q| == 2 && p[1] == q[1]
    ensures i in {2, 6} && j in {6, 14}
  {
  }

  lemma ApiKeyRows()
    ensures ENV_OVERRIDE_MAP[2] == (TMDB_KEY, ["tmdb", "api_key"])
    ensures ENV_OVERRIDE_MAP[6] == (EMBY_KEY, ["emby", "api_key"])
    ensures ENV_OVERRIDE_MAP[14] == (SECURITY_KEY, ["security", "api_key"])
  {
  }

  lemma RowsClashIff<Id>(h: Heap<Id>, root: Id, i: nat, j: nat)
    requires i < j < |ENV_OVERRIDE_MAP|
    ensures var p, q := ENV_OVERRIDE_MAP[i].1, ENV_OVERRIDE_MAP[j].1;
            && p != [] && q != []
            && (Clash(h, root, p, q) <==> OneSection(h, root, p, q))
            && (Clash(h, root, q, p) <==> OneSection(h, root, p, q))
  {
    var p, q := ENV_OVERRIDE_MAP[i].1, ENV_OVERRIDE_MAP[j].1;
    TablePathsHaveTwoLevels();
    TableIsPrefixFree();
    assert TwoLevels(p, q) && Incomparable(p, q);
    ShortPathDisturbsIff(h, root, p, q);
    ShortPathDisturbsIff(h, root, q, p);
  }

  /** Rows whose variables are set clash only as two sections that are one dictionary. */
  lemma SetRowsClash<Id>(h: Heap<Id>, root: Id, env: map<string, string>, i: nat, j: nat)
    requires i < j < |ENV_OVERRIDE_MAP| && IsSet(env, ENV_OVERRIDE_MAP[i].0) && IsSet(env, ENV_OVERRIDE_MAP[j].0)
    requires OneSection(h, root, ENV_OVERRIDE_MAP[i].1, ENV_OVERRIDE_MAP[j].1)
    ensures !SectionsApart(h, root, env)
  {
    OnlyApiKeysRepeat(i, j);
    ApiKeyRows();
  }

  lemma SetRowsArePeaceful<Id>(h: Heap<Id>, root: Id, env: map<string, string>, i: nat, j: nat)
    requires i < j < |ENV_OVERRIDE_MAP| && IsSet(env, ENV_OVERRIDE_MAP[i].0) && IsSet(env, ENV_OVERRIDE_MAP[j].0)
    requires var writes := WritesFor(env, ENV_OVERRIDE_MAP); Writable(writes) && Peaceful(h, root, writes)
    ensures !OneSection(h, root, ENV_OVERRIDE_MAP[i].1, ENV_OVERRIDE_MAP[j].1)
  {
    var writes := WritesFor(env, ENV_OVERRIDE_MAP);
    RowsClashIff(h, root, i, j);
    TableIsPrefixFree();
    assert Incomparable(ENV_OVERRIDE_MAP[i].1, ENV_OVERRIDE_MAP[j].1);
    RowIsWritten(env, ENV_OVERRIDE_MAP, i);
    RowIsWritten(env, ENV_OVERRIDE_MAP, j);
    var k :| 0 <= k < |writes| && writes[k] == Write(ENV_OVERRIDE_MAP[i].1, Str(env[ENV_OVERRIDE_MAP[i].0]));
    var l :| 0 <= l < |writes| && writes[l] == Write(ENV_OVERRIDE_MAP[j].1, Str(env[ENV_OVERRIDE_MAP[j].0]));
    assert k < l ==> !Clash(h, root, writes[k].path, writes[l].path);
    assert l < k ==> !Clash(h, root, writes[l].path, writes[k].path);
  }

  lemma OverridesAreWritable(env: map<string, string>)
    ensures var writes := WritesFor(env, ENV_OVERRIDE_MAP);
            && Writable(writes) && (forall w :: w in writes ==> Simple(w.path))
            && (forall i, j :: 0 <= i < j < |writes| ==> writes[i] != writes[j])
  {
    var writes := WritesFor(env, ENV_OVERRIDE_MAP);
    TableIsPrefixFree();
    TablePathsAreSimple();
    WritesFromTable(env, ENV_OVERRIDE_MAP);
    forall w | w in writes ensures w.path != [] && Simple(w.path) {
      assert w in multiset(writes);
    }
    forall i, j | 0 <= i < j < |writes| ensures writes[i] != writes[j] {
      if writes[i] == writes[j] {
        CountedTwice(writes, i, j);
      }
    }
  }

  /** What a caller has to look at before the overrides are applied. */
  lemma PeacefulIffSectionsApart<Id>(h: Heap<Id>, root: Id, env: map<string, string>)
    ensures var writes := WritesFor(env, ENV_OVERRIDE_MAP);
            Writable(writes) && (Peaceful(h, root, writes) <==> SectionsApart(h, root, env))
  {
    var writes := WritesFor(env, ENV_OVERRIDE_MAP);
    OverridesAreWritable(env);
    if Peaceful(h, root, writes) {
      ApiKeyRows();
      if IsSet(env, TMDB_KEY) && IsSet(env, EMBY_KEY) {
        SetRowsArePeaceful(h, root, env, 2, 6);
      }
      if IsSet(env, TMDB_KEY) && IsSet(env, SECURITY_KEY) {
        SetRowsArePeaceful(h, root, env, 2, 14);
      }
      if IsSet(env, EMBY_KEY) && IsSet(env, SECURITY_KEY) {
        SetRowsArePeaceful(h, root, env, 6, 14);
      }
    }
    if SectionsApart(h, root, env) {
      forall k, l | 0 <= k < l < |writes| ensures !Clash(h, root, writes[k].path, writes[l].path) {
        ApartWritesDoNotClash(h, root, env, k, l);
      }
    }
  }

  lemma ApartWritesDoNotClash<Id>(h: Heap<Id>, root: Id, env: map<string, string>, k: nat, l: nat)
    requires k < l < |WritesFor(env, ENV_OVERRIDE_MAP)| && SectionsApart(h, root, env)
    requires Writable(WritesFor(env, ENV_OVERRIDE_MAP))
    ensures !Clash(h, root, WritesFor(env, ENV_OVERRIDE_MAP)[k].path, WritesFor(env, ENV_OVERRIDE_MAP)[l].path)
  {
    var t := ENV_OVERRIDE_MAP;
    var v, w := WritesFor(env, t)[k], WritesFor(env, t)[l];
    OverridesAreWritable(env);
    var i := RowOfWrite(env, t, v);
    var j := RowOfWrite(env, t, w);
    assert i != j;
    var a, b := if i < j then i else j, if i < j then j else i;
    RowsClashIff(h, root, a, b);
    if OneSection(h, root, t[a].1, t[b].1) {
      SetRowsClash(h, root, env, a, b);
    }
  }

  lemma RowOfWrite(env: map<string, string>, table: seq<(string, Path)>, w: Write) returns (i: nat)
    requires w in WritesFor(env, table) && table == ENV_OVERRIDE_MAP
    ensures i < |table| && Writes(env, table[i], w)
  {
    TableIsPrefixFree();
    WritesFromTable(env, table);
    i :| 0 <= i < |table| && Writes(env, table[i], w);
  }

  /**
   Variables with different values all read back after the override phase exactly when no two sections
   that get an `api_key` are one dictionary; every other sharing in the configuration is harmless.
   */
  lemma OverridesReadBackIff<Id>(hs: seq<Heap<Id>>, root: Id, env: map<string, string>)
    requires var writes := WritesFor(env, ENV_OVERRIDE_MAP); Phase(hs, root, writes) && DistinctValues(writes)
    requires hs != [] && Closed(hs[0]) && root in hs[0]
    ensures ReadsBack(Last(hs), root, WritesFor(env, ENV_OVERRIDE_MAP)) <==> SectionsApart(hs[0], root, env)
  {
    OverridesAreWritable(env);
    PeacefulIffSectionsApart(hs[0], root, env);
    PhaseReadsBackIff(hs, root, WritesFor(env, ENV_OVERRIDE_MAP));
  }

  /** Copied sections are one dictionary where the originals are. */
  lemma SectionsApartAlike<Id>(h: Heap<Id>, g: Heap<Id>, m: map<Id, Id>, root: Id, env: map<string, string>)
    requires Alike(h, g, m) && root in m
    ensures SectionsApart(g, m[root], env) <==> SectionsApart(h, root, env)
  {
    NextAlike(h, g, m, root, "tmdb");
    NextAlike(h, g, m, root, "emby");
    NextAlike(h, g, m, root, "security");
  }

  // ----- A phase while it runs -----

  lemma {:induction false} PhaseGoesOn<Id>(hs: seq<Heap<Id>>, root: Id, writes: seq<Write>, w: Write, h': Heap<Id>)
    requires Phase(hs, root, writes) && w.path != [] && Wrote(Last(hs), root, w.path, w.value, h')
    ensures Phase(hs + [h'], root, writes + [w])
    decreases |writes|
  {
    if writes == [] {
      assert Phase((hs + [h'])[1..], root, (writes + [w])[1..]);
    } else {
      PhaseGoesOn(hs[1..], root, writes[1..], w, h');
      assert (hs + [h'])[1..] == hs[1..] + [h'] && (writes + [w])[1..] == writes[1..] + [w];
    }
  }

  lemma {:induction false} RowAppended(env: map<string, string>, table: seq<(string, Path)>, i: nat)
    requires i < |table|
    ensures WritesFor(env, table[..i + 1])
            == WritesFor(env, table[..i])
               + if IsSet(env, table[i].0) then [Write(table[i].1, Str(env[table[i].0]))] else []
    decreases i
  {
    FirstWrite(env, table[..i + 1]);
    if i == 0 {
      assert table[..1][1..] == [] && table[..0] == [];
    } else {
      FirstWrite(env, table[..i]);
      assert table[..i + 1][1..] == table[1..][..i] && table[..i][1..] == table[1..][..i - 1];
      RowAppended(env, table[1..], i - 1);
    }
  }

  // ----- The case that fails -----

  /** Rows whose variables are not set make no writes. */
  lemma {:induction false} RowsSkipped(env: map<string, string>, table: seq<(string, Path)>, i: nat, j: nat)
    requires i <= j <= |table| && forall k :: i <= k < j ==> !IsSet(env, table[k].0)
    ensures WritesFor(env, table[i..]) == WritesFor(env, table[j..])
    decreases j - i
  {
    if i < j {
      FirstWrite(env, table[i..]);
      assert table[i..][0] == table[i] && table[i..][1..] == table[i + 1..];
      RowsSkipped(env, table, i + 1, j);
    }
  }

  lemma TwoRowsWrite(env: map<string, string>, table: seq<(string, Path)>, i: nat, j: nat)
    requires i < j < |table| && IsSet(env, table[i].0) && IsSet(env, table[j].0)
    requires forall k :: 0 <= k < |table| && k != i && k != j ==> !IsSet(env, table[k].0)
    ensures WritesFor(env, table)
            == [Write(table[i].1, Str(env[table[i].0])), Write(table[j].1, Str(env[table[j].0]))]
  {
    assert table[0..] == table && table[|table|..] == [];
    RowsSkipped(env, table, 0, i);
    RowWritten(env, table, i);
    RowsSkipped(env, table, i + 1, j);
    RowWritten(env, table, j);
    RowsSkipped(env, table, j + 1, |table|);
  }

  lemma RowWritten(env: map<string, string>, table: seq<(string, Path)>, i: nat)
    requires i < |table| && IsSet(env, table[i].0)
    ensures WritesFor(env, table[i..]) == [Write(table[i].1, Str(env[table[i].0]))] + WritesFor(env, table[i + 1..])
  {
    FirstWrite(env, table[i..]);
    assert table[i..][0] == table[i] && table[i..][1..] == table[i + 1..];
  }

  lemma TwoKeysSet(a: string, b: string)
    requires a != "" && b != ""
    ensures WritesFor(map[TMDB_KEY := a, EMBY_KEY := b], ENV_OVERRIDE_MAP)
            == [Write(["tmdb", "api_key"], Str(a)), Write(["emby", "api_key"], Str(b))]
  {
    var env := map[TMDB_KEY := a, EMBY_KEY := b];
    ApiKeyRows();
    TwoKeysOnly(env);
    TwoRowsWrite(env, ENV_OVERRIDE_MAP, 2, 6);
  }

  lemma TwoKeysOnly(env: map<string, string>)
    requires env.Keys == {TMDB_KEY, EMBY_KEY}
    ensures forall k :: 0 <= k < |ENV_OVERRIDE_MAP| && k != 2 && k != 6 ==> !IsSet(env, ENV_OVERRIDE_MAP[k].0)
  {
  }

  /** The root dictionary 0 has dictionary 1 under both sections. */
  function Aliased(section: map<string, Cell<nat>>): Heap<nat> {
    map[0 := map["tmdb" := Ref(1), "emby" := Ref(1)], 1 := section]
  }

  lemma AliasedWrite(section: map<string, Cell<nat>>, name: string, value: Json)
    requires name in {"tmdb", "emby"} && forall k :: k in section ==> section[k].Leaf?
    ensures var after := Aliased(section["api_key" := Leaf(value)]);
            && Wrote(Aliased(section), 0, [name, "api_key"], value, after)
            && Look(after, 0, ["tmdb", "api_key"]) == Holding(value)
            && Look(after, 0, ["emby", "api_key"]) == Holding(value)
  {
    var h, after := Aliased(section), Aliased(section["api_key" := Leaf(value)]);
    ShortEnd(h, 0, [name, "api_key"]);
    AliasedLook(after, "tmdb", value);
    AliasedLook(after, "emby", value);
  }

  lemma AliasedLook(h: Heap<nat>, name: string, value: Json)
    requires Next(h, 0, name) == Some(1) && 1 in h && "api_key" in h[1] && h[1]["api_key"] == Leaf(value)
    ensures Look(h, 0, [name, "api_key"]) == Holding(value)
  {
    assert [name, "api_key"][1..] == ["api_key"];
    assert Follow(h, 1, ["api_key"]) == Some(Leaf(value));
    assert Follow(h, 0, [name, "api_key"]) == Follow(h, 1, ["api_key"]);
  }

  function AliasedHeaps(a: Json, b: Json): seq<Heap<nat>> {
    [Aliased(map[]), Aliased(map["api_key" := Leaf(a)]), Aliased(map["api_key" := Leaf(b)])]
  }

  lemma AliasedPhase(a: Json, b: Json)
    ensures var hs := AliasedHeaps(a, b);
            && Phase(hs, 0, [Write(["tmdb", "api_key"], a), Write(["emby", "api_key"], b)])
            && Look(hs[1], 0, ["emby", "api_key"]) == Holding(a) && Look(hs[2], 0, ["tmdb", "api_key"]) == Holding(b)
  {
    var none: map<string, Cell<nat>>, first: map<string, Cell<nat>> := map[], map["api_key" := Leaf(a)];
    AliasedWrite(none, "tmdb", a);
    AliasedWrite(first, "emby", b);
    assert first["api_key" := Leaf(b)] == map["api_key" := Leaf(b)] && none["api_key" := Leaf(a)] == first;
    TwoWrites(AliasedHeaps(a, b), [Write(["tmdb", "api_key"], a), Write(["emby", "api_key"], b)], 0);
  }

  /** With one dictionary under two sections, the later of two variables is read for both. */
  lemma SharedSectionExample(a: string, b: string)
    requires a != "" && b != "" && a != b
    ensures var writes := WritesFor(map[TMDB_KEY := a, EMBY_KEY := b], ENV_OVERRIDE_MAP);
            var hs := AliasedHeaps(Str(a), Str(b));
            && Phase(hs, 0, writes) && DistinctValues(writes)
            && Look(hs[1], 0, ["emby", "api_key"]) == Holding(Str(a))
            && Look(hs[2], 0, ["tmdb", "api_key"]) == Holding(Str(b))
  {
    TwoKeysSet(a, b);
    AliasedPhase(Str(a), Str(b));
  }

  lemma TwoWrites<Id>(hs: seq<Heap<Id>>, writes: seq<Write>, root: Id)
    requires |hs| == 3 && |writes| == 2 && writes[0].path != [] && writes[1].path != []
    requires Wrote(hs[0], root, writes[0].path, writes[0].value, hs[1])
    requires Wrote(hs[1], root, writes[1].path, writes[1].value, hs[2])
    ensures Phase(hs, root, writes)
  {
    assert Phase(hs[1..][1..], root, writes[1..][1..]);
    assert Phase(hs[1..], root, writes[1..]);
  }
}