/** The environment overrides of app/config/runtime.py: a fixed table of paths and the writes that it asks for. */
module EnvOverrides {
  import opened Prelude
  import opened ConfigTree

  datatype Write = Write(path: Path, value: Json)

  const ENV_OVERRIDE_MAP: seq<(string, Path)> := [
    ("SMART_MEDIA_DATABASE", ["database"]),
    ("SMART_MEDIA_AI_API_KEY", ["api_keys", "ai_api_key"]),
    ("SMART_MEDIA_TMDB_API_KEY", ["tmdb", "api_key"]),
    ("SMART_MEDIA_QUARK_COOKIE", ["quark", "cookie"]),
    ("SMART_MEDIA_EMBY_URL", ["emby", "url"]),
    ("SMART_MEDIA_EMBY_PROXY_BASE_URL", ["emby", "proxy_base_url"]),
    ("SMART_MEDIA_EMBY_API_KEY", ["emby", "api_key"]),
    ("SMART_MEDIA_TELEGRAM_BOT_TOKEN", ["telegram", "bot_token"]),
    ("SMART_MEDIA_TELEGRAM_CHAT_ID", ["telegram", "chat_id"]),
    ("SMART_MEDIA_TELEGRAM_PROXY", ["telegram", "proxy"]),
    ("SMART_MEDIA_WEBDAV_USERNAME", ["webdav", "username"]),
    ("SMART_MEDIA_WEBDAV_PASSWORD", ["webdav", "password"]),
    ("SMART_MEDIA_ALIST_TOKEN", ["alist", "token"]),
    ("SMART_MEDIA_WECHAT_SEND_KEY", ["wechat", "send_key"]),
    ("SMART_MEDIA_SECURITY_API_KEY", ["security", "api_key"]),
    ("SMART_MEDIA_JWT_SECRET_KEY", ["security", "jwt_secret_key"]),
    ("SMART_MEDIA_LOG_FORMAT", ["log", "format"]),
    ("SMART_MEDIA_LOG_LEVEL", ["log_level"])
  ]

  /** The writes that an environment asks for, in table order; unset and empty variables ask for none. */
  function WritesFor(env: map<string, string>, table: seq<(string, Path)>): seq<Write> {
    if table == [] then []
    else
      var (name, path) := table[0];
      (if name in env && env[name] != "" then [Write(path, Str(env[name]))] else []) + WritesFor(env, table[1..])
  }

  function SetAll(fields: map<string, Json>, writes: seq<Write>): map<string, Json>
    decreases |writes|
  {
    if writes == [] then fields else SetAll(SetNested(fields, writes[0].path, writes[0].value), writes[1..])
  }

  /** No write's path leads through another's, and none is repeated. */
  ghost predicate PrefixFree(writes: multiset<Write>) {
    && (forall w :: w in writes ==> w.path != [] && writes[w] == 1)
    && (forall v, w :: v in writes && w in writes && v != w ==> Incomparable(v.path, w.path))
  }

  lemma PrefixFreePart(part: multiset<Write>, whole: multiset<Write>)
    requires part <= whole && PrefixFree(whole)
    ensures PrefixFree(part)
  {
    forall w | w in part ensures w.path != [] && part[w] == 1 {
      assert w in whole;
    }
    forall v, w | v in part && w in part && v != w ensures Incomparable(v.path, w.path) {
      assert v in whole && w in whole;
    }
  }

  /** A write can be moved to the front of writes that it does not touch. */
  lemma {:induction false} WriteFirst(fields: map<string, Json>, before: seq<Write>, w: Write, rest: seq<Write>)
    requires w.path != [] && forall x :: x in before ==> x.path != [] && Incomparable(x.path, w.path)
    ensures SetAll(fields, before + [w] + rest) == SetAll(SetNested(fields, w.path, w.value), before + rest)
    decreases |before|
  {
    if before == [] {
      assert ([w] + rest)[1..] == rest && before + [w] + rest == [w] + rest && before + rest == rest;
    } else {
      var b := before[0];
      assert (before + [w] + rest)[1..] == before[1..] + [w] + rest && (before + rest)[1..] == before[1..] + rest;
      WriteFirst(SetNested(fields, b.path, b.value), before[1..], w, rest);
      SetsCommute(fields, b.path, b.value, w.path, w.value);
    }
  }

  /** In a prefix-free sequence every other write is unrelated to a given one. */
  lemma OthersUnrelated(before: seq<Write>, w: Write, rest: seq<Write>)
    requires PrefixFree(multiset(before + [w] + rest))
    ensures w.path != [] && PrefixFree(multiset(before + rest))
    ensures forall x :: x in before + rest ==> x.path != [] && Incomparable(x.path, w.path)
  {
    var all, others := multiset(before + [w] + rest), multiset(before + rest);
    assert all == others + multiset{w};
    assert w in all && others[w] == 0;
    forall x | x in before + rest ensures x.path != [] && Incomparable(x.path, w.path) {
      assert x in others && x in all;
    }
    PrefixFreePart(others, all);
  }

  /** Order does not matter: two arrangements of the same prefix-free writes give the same tree. */
  lemma {:induction false} OverridesCommute(fields: map<string, Json>, xs: seq<Write>, ys: seq<Write>)
    requires PrefixFree(multiset(xs)) && multiset(xs) == multiset(ys)
    ensures SetAll(fields, xs) == SetAll(fields, ys)
    decreases |xs|
  {
    if xs == [] {
      assert |multiset(ys)| == |ys| && |multiset(xs)| == 0;
    } else {
      var w := xs[0];
      assert w in multiset(ys);
      var i :| 0 <= i < |ys| && ys[i] == w;
      var before, rest := ys[..i], ys[i + 1..];
      assert ys == before + [w] + rest;
      assert PrefixFree(multiset(before + [w] + rest));
      OthersUnrelated(before, w, rest);
      WriteFirst(fields, before, w, rest);
      SameRest(xs, ys, before, w, rest);
      OverridesCommute(SetNested(fields, w.path, w.value), xs[1..], before + rest);
    }
  }

  lemma SameRest(xs: seq<Write>, ys: seq<Write>, before: seq<Write>, w: Write, rest: seq<Write>)
    requires xs != [] && xs[0] == w && ys == before + [w] + rest && multiset(xs) == multiset(ys)
    ensures multiset(xs[1..]) == multiset(before + rest)
  {
    assert xs == [w] + xs[1..];
    assert multiset(ys) == multiset(before + rest) + multiset{w};
    assert multiset(xs[1..]) == multiset(xs) - multiset{w};
  }

  /** A path that no write leads to or through keeps its content. */
  lemma {:induction false} UnrelatedPathsKept(fields: map<string, Json>, writes: seq<Write>, other: Path)
    requires other != [] && forall w :: w in writes ==> w.path != [] && Incomparable(w.path, other)
    ensures Lookup(Obj(SetAll(fields, writes)), other) == Lookup(Obj(fields), other)
    decreases |writes|
  {
    if writes != [] {
      SetKeepsOthers(fields, writes[0].path, writes[0].value, other);
      UnrelatedPathsKept(SetNested(fields, writes[0].path, writes[0].value), writes[1..], other);
    }
  }

  /** Each written path reads back its value. */
  lemma WritesReadBack(fields: map<string, Json>, writes: seq<Write>, w: Write)
    requires PrefixFree(multiset(writes)) && w in writes
    ensures Lookup(Obj(SetAll(fields, writes)), w.path) == Some(w.value)
  {
    var i :| 0 <= i < |writes| && writes[i] == w;
    var before, rest := writes[..i], writes[i + 1..];
    assert writes == before + [w] + rest;
    OthersUnrelated(before, w, rest);
    WriteFirst(fields, before, w, rest);
    UnrelatedPathsKept(SetNested(fields, w.path, w.value), before + rest, w.path);
    SetThenGet(fields, w.path, w.value);
  }

  // ----- The table -----

  ghost predicate TableOk(table: seq<(string, Path)>) {
    && (forall i :: 0 <= i < |table| ==> table[i].1 != [])
    && (forall i, j :: 0 <= i < j < |table| ==> Incomparable(table[i].1, table[j].1))
  }

  lemma {:induction false} WritesFromTable(env: map<string, string>, table: seq<(string, Path)>)
    requires TableOk(table)
    ensures forall w :: w in WritesFor(env, table) ==> exists i :: 0 <= i < |table| && Writes(env, table[i], w)
    ensures PrefixFree(multiset(WritesFor(env, table)))
    decreases |table|
  {
    if table != [] {
      WritesFromTable(env, table[1..]);
      var (name, path) := table[0];
      var rest := WritesFor(env, table[1..]);
      forall w | w in rest
        ensures Incomparable(path, w.path)
        ensures exists i :: 0 <= i < |table| && Writes(env, table[i], w)
      {
        var i :| 0 <= i < |table[1..]| && Writes(env, table[1..][i], w);
        assert table[i + 1] == table[1..][i];
      }
      FirstRow(env, table, path, rest);
    }
  }

  /** A row of the table writes the value of its variable, if that is set and not empty. */
  predicate Writes(env: map<string, string>, row: (string, Path), w: Write) {
    w.path == row.1 && row.0 in env && env[row.0] != "" && w.value == Str(env[row.0])
  }

  lemma FirstRow(env: map<string, string>, table: seq<(string, Path)>, path: Path, rest: seq<Write>)
    requires table != [] && path == table[0].1 && path != [] && rest == WritesFor(env, table[1..])
    requires PrefixFree(multiset(rest)) && forall w :: w in rest ==> Incomparable(path, w.path)
    ensures PrefixFree(multiset(WritesFor(env, table)))
    ensures forall w :: w in WritesFor(env, table) ==> w in rest || Writes(env, table[0], w)
  {
    var name := table[0].0;
    FirstWrite(env, table);
    if name in env && env[name] != "" {
      AddPrefixFree(Write(path, Str(env[name])), rest);
    }
  }

  lemma FirstWrite(env: map<string, string>, table: seq<(string, Path)>)
    requires table != []
    ensures var (name, path) := table[0];
            var rest := WritesFor(env, table[1..]);
            && (name in env && env[name] != "" ==> WritesFor(env, table) == [Write(path, Str(env[name]))] + rest)
            && (!(name in env && env[name] != "") ==> WritesFor(env, table) == rest)
  {
    var rest := WritesFor(env, table[1..]);
    assert [] + rest == rest;
  }

  lemma AddPrefixFree(w: Write, rest: seq<Write>)
    requires w.path != [] && PrefixFree(multiset(rest))
    requires forall x :: x in rest ==> Incomparable(w.path, x.path)
    ensures PrefixFree(multiset([w] + rest))
  {
    var all := multiset([w] + rest);
    assert all == multiset{w} + multiset(rest);
    assert w !in rest;
    forall x | x in all ensures x.path != [] && all[x] == 1 {
      assert x == w || x in multiset(rest);
    }
    forall x, y | x in all && y in all && x != y ensures Incomparable(x.path, y.path) {
      assert x == w || x in multiset(rest);
      assert y == w || y in multiset(rest);
    }
  }

  /** Different sections, or different keys of one section. */
  predicate Apart(p: Path, q: Path) {
    p != [] && q != [] && (p[0] != q[0] || (|p| == 2 && |q| == 2 && p[1] != q[1]))
  }

  lemma TableIsPrefixFree()
    ensures TableOk(ENV_OVERRIDE_MAP)
  {
    var t := ENV_OVERRIDE_MAP;
    forall i, j | 0 <= i < j < |t| ensures Incomparable(t[i].1, t[j].1) {
      assert Apart(t[i].1, t[j].1);
    }
  }

  /**
   The override phase. For every environment and configuration, the writes may be made in any order,
   each variable that is set can be read back at its path, and paths unrelated to a set variable keep their content.
   */
  lemma OverridePhase(env: map<string, string>, fields: map<string, Json>, order: seq<Write>)
    requires multiset(order) == multiset(WritesFor(env, ENV_OVERRIDE_MAP))
    ensures SetAll(fields, order) == SetAll(fields, WritesFor(env, ENV_OVERRIDE_MAP))
    ensures forall w :: w in order ==> Lookup(Obj(SetAll(fields, order)), w.path) == Some(w.value)
    ensures forall other: Path :: other != [] && (forall w :: w in order ==> Incomparable(w.path, other)) ==>
              Lookup(Obj(SetAll(fields, order)), other) == Lookup(Obj(fields), other)
  {
    TableIsPrefixFree();
    WritesFromTable(env, ENV_OVERRIDE_MAP);
    OverridesCommute(fields, WritesFor(env, ENV_OVERRIDE_MAP), order);
    forall w | w in order ensures Lookup(Obj(SetAll(fields, order)), w.path) == Some(w.value) {
      WritesReadBack(fields, order, w);
    }
    forall other: Path | other != [] && forall w :: w in order ==> Incomparable(w.path, other)
      ensures Lookup(Obj(SetAll(fields, order)), other) == Lookup(Obj(fields), other)
    {
      UnrelatedPathsKept(fields, order, other);
    }
  }

  // ----- Where each variable goes -----

  /** The variable, if it is set and not empty, is what is read at the path. */
  predicate ReadsAt(env: map<string, string>, tree: Json, name: string, path: Path) {
    name in env && env[name] != "" ==> Lookup(tree, path) == Some(Str(env[name]))
  }

  lemma {:induction false} RowIsWritten(env: map<string, string>, table: seq<(string, Path)>, i: nat)
    requires i < |table| && table[i].0 in env && env[table[i].0] != ""
    ensures Write(table[i].1, Str(env[table[i].0])) in WritesFor(env, table)
    decreases i
  {
    FirstWrite(env, table);
    if i > 0 {
      RowIsWritten(env, table[1..], i - 1);
    }
  }

  lemma RowReadsBack(env: map<string, string>, fields: map<string, Json>, table: seq<(string, Path)>, i: nat)
    requires i < |table| && TableOk(table)
    ensures ReadsAt(env, Obj(SetAll(fields, WritesFor(env, table))), table[i].0, table[i].1)
  {
    if table[i].0 in env && env[table[i].0] != "" {
      RowIsWritten(env, table, i);
      WritesFromTable(env, table);
      WritesReadBack(fields, WritesFor(env, table), Write(table[i].1, Str(env[table[i].0])));
    }
  }

  /** Each variable that is set is read in its place. */
  predicate EachInItsPlace(env: map<string, string>, tree: Json) {
    && ReadsAt(env, tree, "SMART_MEDIA_DATABASE", ["database"])
    && ReadsAt(env, tree, "SMART_MEDIA_AI_API_KEY", ["api_keys", "ai_api_key"])
    && ReadsAt(env, tree, "SMART_MEDIA_TMDB_API_KEY", ["tmdb", "api_key"])
    && ReadsAt(env, tree, "SMART_MEDIA_QUARK_COOKIE", ["quark", "cookie"])
    && ReadsAt(env, tree, "SMART_MEDIA_EMBY_URL", ["emby", "url"])
    && ReadsAt(env, tree, "SMART_MEDIA_EMBY_PROXY_BASE_URL", ["emby", "proxy_base_url"])
    && ReadsAt(env, tree, "SMART_MEDIA_EMBY_API_KEY", ["emby", "api_key"])
    && ReadsAt(env, tree, "SMART_MEDIA_TELEGRAM_BOT_TOKEN", ["telegram", "bot_token"])
    && ReadsAt(env, tree, "SMART_MEDIA_TELEGRAM_CHAT_ID", ["telegram", "chat_id"])
    && ReadsAt(env, tree, "SMART_MEDIA_TELEGRAM_PROXY", ["telegram", "proxy"])
    && ReadsAt(env, tree, "SMART_MEDIA_WEBDAV_USERNAME", ["webdav", "username"])
    && ReadsAt(env, tree, "SMART_MEDIA_WEBDAV_PASSWORD", ["webdav", "password"])
    && ReadsAt(env, tree, "SMART_MEDIA_ALIST_TOKEN", ["alist", "token"])
    && ReadsAt(env, tree, "SMART_MEDIA_WECHAT_SEND_KEY", ["wechat", "send_key"])
    && ReadsAt(env, tree, "SMART_MEDIA_SECURITY_API_KEY", ["security", "api_key"])
    && ReadsAt(env, tree, "SMART_MEDIA_JWT_SECRET_KEY", ["security", "jwt_secret_key"])
    && ReadsAt(env, tree, "SMART_MEDIA_LOG_FORMAT", ["log", "format"])
    && ReadsAt(env, tree, "SMART_MEDIA_LOG_LEVEL", ["log_level"])
  }

  /** After the overrides each variable of the environment is read in its place, whatever the configuration was. */
  lemma WhereVariablesGo(env: map<string, string>, fields: map<string, Json>)
    ensures EachInItsPlace(env, Obj(SetAll(fields, WritesFor(env, ENV_OVERRIDE_MAP))))
  {
    var tree, t := Obj(SetAll(fields, WritesFor(env, ENV_OVERRIDE_MAP))), ENV_OVERRIDE_MAP;
    TableIsPrefixFree();
    forall i | 0 <= i < |t| ensures ReadsAt(env, tree, t[i].0, t[i].1) {
      RowReadsBack(env, fields, t, i);
    }
    assert ReadsAt(env, tree, t[0].0, t[0].1) && ReadsAt(env, tree, t[1].0, t[1].1) && ReadsAt(env, tree, t[2].0, t[2].1);
    assert ReadsAt(env, tree, t[3].0, t[3].1) && ReadsAt(env, tree, t[4].0, t[4].1) && ReadsAt(env, tree, t[5].0, t[5].1);
    assert ReadsAt(env, tree, t[6].0, t[6].1) && ReadsAt(env, tree, t[7].0, t[7].1) && ReadsAt(env, tree, t[8].0, t[8].1);
    assert ReadsAt(env, tree, t[9].0, t[9].1) && ReadsAt(env, tree, t[10].0, t[10].1) && ReadsAt(env, tree, t[11].0, t[11].1);
    assert ReadsAt(env, tree, t[12].0, t[12].1) && ReadsAt(env, tree, t[13].0, t[13].1) && ReadsAt(env, tree, t[14].0, t[14].1);
    assert ReadsAt(env, tree, t[15].0, t[15].1) && ReadsAt(env, tree, t[16].0, t[16].1) && ReadsAt(env, tree, t[17].0, t[17].1);
  }
}
