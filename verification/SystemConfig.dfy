/**
 Masking a configuration for display (app/core/security.py) and saving what comes back
 (app/api/system_config.py): restore masked values, then merge into the current configuration.
 The redaction of free text is the parameter `redact`.
 */
module SystemConfig {
  import opened Prelude
  import opened Text
  import opened ConfigTree

  // ----- Sensitive keys and masked values -----

  const SENSITIVE_FIELD_NAMES := {
    "password", "passwd", "token", "api_key", "apikey", "secret", "cookie", "authorization", "auth", "key"
  }

  predicate MatchesAt(s: string, part: string, i: nat) {
    i + |part| <= |s| && s[i..i + |part|] == part
  }

  predicate Contains(s: string, part: string) {
    exists i: nat :: i <= |s| && MatchesAt(s, part, i)
  }

  predicate IsSensitiveKey(key: string) {
    exists name :: name in SENSITIVE_FIELD_NAMES && Contains(Lower(key), name)
  }

  function Stars(n: nat): string {
    seq(n, _ => '*')
  }

  /** The first and last four characters, the rest starred; short secrets are starred throughout. */
  function MaskSecret(text: string): string {
    if |text| <= 8 then Stars(|text|) else text[..4] + Stars(|text| - 8) + text[|text| - 4..]
  }

  function MaskValue(v: Json): Json {
    match v
    case Str(s) => Str(MaskSecret(s))
    case Null => Str("")
    case _ => Str("***")
  }

  function Mask(redact: string -> string, j: Json): Json {
    match j
    case Obj(fields) =>
      Obj(map k | k in fields :: if IsSensitiveKey(k) then MaskValue(fields[k]) else Mask(redact, fields[k]))
    case Arr(items) => Arr(seq(|items|, i requires 0 <= i < |items| => Mask(redact, items[i])))
    case Str(s) => Str(redact(s))
    case _ => j
  }

  /** The incoming value is what masking shows for the current one. */
  predicate IsMaskedValue(incoming: Json, current: Json) {
    || incoming == Str("***") || incoming == Str("")
    || (incoming.Str? && current.Str? && current.s != "" && incoming.s == MaskSecret(current.s))
  }

  function FieldOr(fields: map<string, Json>, key: string): Json {
    if key in fields then fields[key] else Null
  }

  function Restore(incoming: Json, current: Json): Json {
    if incoming.Obj? && current.Obj? then
      Obj(map k | k in incoming.fields ::
            var v, cur := incoming.fields[k], FieldOr(current.fields, k);
            if IsSensitiveKey(k) && IsMaskedValue(v, cur) then cur else Restore(v, cur))
    else if incoming.Arr? && current.Arr? then
      Arr(seq(|incoming.items|, i requires 0 <= i < |incoming.items| =>
                Restore(incoming.items[i], if i < |current.items| then current.items[i] else Null)))
    else incoming
  }

  function DeepMerge(base: map<string, Json>, patch: map<string, Json>): map<string, Json>
    decreases Obj(patch)
  {
    map k | k in base.Keys + patch.Keys ::
      if k !in patch then base[k]
      else if patch[k].Obj? && k in base && base[k].Obj? then Obj(DeepMerge(base[k].fields, patch[k].fields))
      else patch[k]
  }

  // ----- Masking and restoring is the identity, exactly when redaction leaves the plain strings alone -----

  /** Redaction changes no string outside sensitive fields. */
  predicate Unredacted(redact: string -> string, j: Json) {
    match j
    case Obj(fields) => forall k :: k in fields && !IsSensitiveKey(k) ==> Unredacted(redact, fields[k])
    case Arr(items) => forall i :: 0 <= i < |items| ==> Unredacted(redact, items[i])
    case Str(s) => redact(s) == s
    case _ => true
  }

  lemma MaskedIsRecognized(v: Json)
    ensures IsMaskedValue(MaskValue(v), v)
  {
    if v.Str? && v.s == "" {
      assert MaskSecret(v.s) == "";
    }
  }

  /** The round trip gives the configuration back if and only if redaction changes none of its plain strings. */
  lemma {:induction false} RoundTripIff(redact: string -> string, c: Json)
    ensures Restore(Mask(redact, c), c) == c <==> Unredacted(redact, c)
  {
    match c
    case Obj(fields) =>
      var back := Restore(Mask(redact, c), c);
      assert back.Obj? && back.fields.Keys == fields.Keys;
      forall k | k in fields
        ensures back.fields[k] == fields[k] <==> IsSensitiveKey(k) || Unredacted(redact, fields[k])
      {
        if IsSensitiveKey(k) {
          MaskedIsRecognized(fields[k]);
        } else {
          RoundTripIff(redact, fields[k]);
        }
      }
      assert back == c <==> forall k :: k in fields ==> back.fields[k] == fields[k];
    case Arr(items) =>
      var back := Restore(Mask(redact, c), c);
      forall i | 0 <= i < |items| ensures back.items[i] == items[i] <==> Unredacted(redact, items[i]) {
        RoundTripIff(redact, items[i]);
      }
      assert back.Arr? && |back.items| == |items|;
      assert back == c <==> forall i :: 0 <= i < |items| ==> back.items[i] == items[i];
    case _ =>
  }

  // ----- Restoring against another value than the one that was masked -----

  /** Masking shows the value as it is. */
  predicate ShownPlain(redact: string -> string, v: Json) {
    match v
    case Obj(fields) =>
      forall k :: k in fields ==> if IsSensitiveKey(k) then MaskValue(fields[k]) == fields[k] else ShownPlain(redact, fields[k])
    case Arr(items) => forall i :: 0 <= i < |items| ==> ShownPlain(redact, items[i])
    case Str(s) => redact(s) == s
    case _ => true
  }

  lemma {:induction false} ShownPlainIff(redact: string -> string, v: Json)
    ensures Mask(redact, v) == v <==> ShownPlain(redact, v)
  {
    var m := Mask(redact, v);
    match v
    case Obj(fields) =>
      forall k | k in fields && !IsSensitiveKey(k) ensures Mask(redact, fields[k]) == fields[k] <==> ShownPlain(redact, fields[k]) {
        ShownPlainIff(redact, fields[k]);
      }
      assert m.fields.Keys == fields.Keys;
      assert m == v <==> forall k :: k in fields ==> m.fields[k] == fields[k];
    case Arr(items) =>
      forall i | 0 <= i < |items| ensures Mask(redact, items[i]) == items[i] <==> ShownPlain(redact, items[i]) {
        ShownPlainIff(redact, items[i]);
      }
      assert m == v <==> forall i :: 0 <= i < |items| ==> m.items[i] == items[i];
    case _ =>
  }

  /** The mask of `secret` sent back where `current` is stored gives the secret again. */
  predicate KeepsSecret(current: Json, secret: Json) {
    if IsMaskedValue(MaskValue(secret), current) then current == secret else MaskValue(secret) == secret
  }

  function ItemOr(items: seq<Json>, i: nat): Json {
    if i < |items| then items[i] else Null
  }

  /** The mask of `v` sent back where `current` is stored gives `v` again. */
  predicate Recovers(redact: string -> string, current: Json, v: Json)
    decreases v
  {
    match v
    case Obj(fields) =>
      if current.Obj? then
        forall k :: k in fields ==>
          if IsSensitiveKey(k) then KeepsSecret(FieldOr(current.fields, k), fields[k])
          else Recovers(redact, FieldOr(current.fields, k), fields[k])
      else ShownPlain(redact, v)
    case Arr(items) =>
      if current.Arr? then forall i :: 0 <= i < |items| ==> Recovers(redact, ItemOr(current.items, i), items[i])
      else ShownPlain(redact, v)
    case Str(s) => redact(s) == s
    case _ => true
  }

  predicate RecoversField(redact: string -> string, current: map<string, Json>, fields: map<string, Json>, k: string)
    requires k in fields
  {
    if IsSensitiveKey(k) then KeepsSecret(FieldOr(current, k), fields[k])
    else Recovers(redact, FieldOr(current, k), fields[k])
  }

  /** For every pair of values, exactly. */
  lemma {:induction false} RestoreMaskIff(redact: string -> string, current: Json, v: Json)
    ensures Restore(Mask(redact, v), current) == v <==> Recovers(redact, current, v)
    decreases v
  {
    ShownPlainIff(redact, v);
    if v.Obj? && current.Obj? {
      RestoreMaskedFields(redact, current.fields, v.fields);
    } else if v.Arr? && current.Arr? {
      RestoreMaskedItems(redact, current.items, v.items);
    }
  }

  lemma {:induction false} RestoreMaskedFields(redact: string -> string, current: map<string, Json>, fields: map<string, Json>)
    ensures Restore(Mask(redact, Obj(fields)), Obj(current)) == Obj(fields)
            <==> Recovers(redact, Obj(current), Obj(fields))
    decreases Obj(fields), 0
  {
    var back := Restore(Mask(redact, Obj(fields)), Obj(current));
    assert back.Obj? && back.fields.Keys == fields.Keys;
    forall k | k in fields ensures back.fields[k] == fields[k] <==> RecoversField(redact, current, fields, k) {
      if !IsSensitiveKey(k) {
        RestoreMaskIff(redact, FieldOr(current, k), fields[k]);
      }
      BackAgain(redact, current, fields, k);
    }
    assert back == Obj(fields) <==> forall k :: k in fields ==> back.fields[k] == fields[k];
  }

  lemma BackAgain(redact: string -> string, current: map<string, Json>, fields: map<string, Json>, k: string)
    requires k in fields
    ensures var back, cur := Restore(Mask(redact, Obj(fields)), Obj(current)), FieldOr(current, k);
            && back.Obj? && k in back.fields
            && back.fields[k] == if !IsSensitiveKey(k) then Restore(Mask(redact, fields[k]), cur)
                                 else if IsMaskedValue(MaskValue(fields[k]), cur) then cur else MaskValue(fields[k])
  {
    var masked := Mask(redact, Obj(fields)).fields;
    assert masked[k] == if IsSensitiveKey(k) then MaskValue(fields[k]) else Mask(redact, fields[k]);
    assert Restore(MaskValue(fields[k]), FieldOr(current, k)) == MaskValue(fields[k]);
    if !IsSensitiveKey(k) {
      assert Restore(Obj(masked), Obj(current)).fields[k] == Restore(masked[k], FieldOr(current, k));
    }
  }

  lemma {:induction false} RestoreMaskedItems(redact: string -> string, current: seq<Json>, items: seq<Json>)
    ensures Restore(Mask(redact, Arr(items)), Arr(current)) == Arr(items) <==> Recovers(redact, Arr(current), Arr(items))
    decreases Arr(items), 0
  {
    var back := Restore(Mask(redact, Arr(items)), Arr(current));
    assert back.Arr? && |back.items| == |items|;
    forall i | 0 <= i < |items| ensures back.items[i] == items[i] <==> Recovers(redact, ItemOr(current, i), items[i]) {
      RestoreMaskIff(redact, ItemOr(current, i), items[i]);
    }
    assert back == Arr(items) <==> forall i :: 0 <= i < |items| ==> back.items[i] == items[i];
  }

  // ----- Merging -----

  /** `patch` has every key of `base`, and so on in every object that both have. */
  predicate Covers(base: map<string, Json>, patch: map<string, Json>)
    decreases Obj(base)
  {
    forall k :: k in base ==> k in patch && (base[k].Obj? && patch[k].Obj? ==> Covers(base[k].fields, patch[k].fields))
  }

  lemma {:induction false} MergeCovering(base: map<string, Json>, patch: map<string, Json>)
    requires Covers(base, patch)
    ensures DeepMerge(base, patch) == patch
    decreases Obj(base)
  {
    var m := DeepMerge(base, patch);
    forall k | k in patch ensures m[k] == patch[k] {
      if patch[k].Obj? && k in base && base[k].Obj? {
        MergeCovering(base[k].fields, patch[k].fields);
      }
    }
    assert m.Keys == patch.Keys;
  }

  lemma {:induction false} RestoredCovers(redact: string -> string, fields: map<string, Json>)
    ensures Covers(fields, Restore(Mask(redact, Obj(fields)), Obj(fields)).fields)
    decreases Obj(fields)
  {
    var back := Restore(Mask(redact, Obj(fields)), Obj(fields)).fields;
    forall k | k in fields
      ensures k in back && (fields[k].Obj? && back[k].Obj? ==> Covers(fields[k].fields, back[k].fields))
    {
      if IsSensitiveKey(k) {
        MaskedIsRecognized(fields[k]);
        if fields[k].Obj? {
          CoversSelf(fields[k].fields);
        }
      } else if fields[k].Obj? {
        RestoredCovers(redact, fields[k].fields);
        assert fields[k] == Obj(fields[k].fields);
      }
    }
  }

  lemma {:induction false} CoversSelf(fields: map<string, Json>)
    ensures Covers(fields, fields)
    decreases Obj(fields)
  {
    forall k | k in fields && fields[k].Obj? ensures Covers(fields[k].fields, fields[k].fields) {
      CoversSelf(fields[k].fields);
    }
  }

  /** What the save request stores for a payload. */
  function Save(current: map<string, Json>, payload: map<string, Json>): map<string, Json> {
    DeepMerge(current, Restore(Obj(payload), Obj(current)).fields)
  }

  /** Saving an unedited masked configuration changes nothing, exactly when redaction left its plain strings alone. */
  lemma SaveUnchangedIff(redact: string -> string, current: map<string, Json>)
    ensures Mask(redact, Obj(current)).Obj?
    ensures Save(current, Mask(redact, Obj(current)).fields) == current <==> Unredacted(redact, Obj(current))
  {
    RoundTripIff(redact, Obj(current));
    RestoredCovers(redact, current);
    MergeCovering(current, Restore(Mask(redact, Obj(current)), Obj(current)).fields);
    assert Mask(redact, Obj(current)) == Obj(Mask(redact, Obj(current)).fields);
    assert Restore(Mask(redact, Obj(current)), Obj(current)) == Obj(Restore(Mask(redact, Obj(current)), Obj(current)).fields);
  }

  /** Merging the same patch again changes nothing. */
  lemma {:induction false} MergeIdempotent(base: map<string, Json>, patch: map<string, Json>)
    ensures DeepMerge(DeepMerge(base, patch), patch) == DeepMerge(base, patch)
    decreases Obj(patch)
  {
    var once := DeepMerge(base, patch);
    var twice := DeepMerge(once, patch);
    forall k | k in once ensures twice[k] == once[k] {
      if k in patch && patch[k].Obj? {
        if k in base && base[k].Obj? {
          MergeIdempotent(base[k].fields, patch[k].fields);
        } else {
          CoversSelf(patch[k].fields);
          MergeCovering(patch[k].fields, patch[k].fields);
        }
      }
    }
    assert twice.Keys == once.Keys;
  }

  /** The patch says nothing about this path: it leaves the patch's objects at a key they do not have. */
  predicate Outside(patch: map<string, Json>, path: Path)
    decreases |path|
  {
    path != []
    && (path[0] !in patch || (patch[path[0]].Obj? && Outside(patch[path[0]].fields, path[1..])))
  }

  lemma {:induction false} OutsideIsAbsent(patch: map<string, Json>, path: Path)
    requires Outside(patch, path)
    ensures Lookup(Obj(patch), path) == None
    decreases |path|
  {
    if path[0] in patch {
      OutsideIsAbsent(patch[path[0]].fields, path[1..]);
    }
  }

  /** Every path outside the patch keeps its content. */
  lemma {:induction false} MergeKeepsOutside(base: map<string, Json>, patch: map<string, Json>, path: Path)
    requires Outside(patch, path)
    ensures Lookup(Obj(DeepMerge(base, patch)), path) == Lookup(Obj(base), path)
    decreases |path|
  {
    var k, rest := path[0], path[1..];
    if k in patch {
      if k in base && base[k].Obj? {
        MergeKeepsOutside(base[k].fields, patch[k].fields, rest);
      } else {
        OutsideIsAbsent(patch[k].fields, rest);
        assert rest != [];
      }
    }
  }

  /** Every plain value of the patch is what the merged configuration holds at its path. */
  lemma {:induction false} MergeTakesPatch(base: map<string, Json>, patch: map<string, Json>, path: Path)
    requires Lookup(Obj(patch), path).Some? && !Lookup(Obj(patch), path).value.Obj?
    ensures Lookup(Obj(DeepMerge(base, patch)), path) == Lookup(Obj(patch), path)
    decreases |path|
  {
    var k, rest := path[0], path[1..];
    if patch[k].Obj? && k in base && base[k].Obj? {
      MergeTakesPatch(base[k].fields, patch[k].fields, rest);
    }
  }

  // ----- Editing one field of the masked configuration -----

  predicate IsPlain(v: Json) {
    !v.Obj? && !v.Arr?
  }

  function FieldAt(fields: map<string, Json>, path: Path): Json
    requires path != []
    decreases |path|
  {
    if |path| == 1 then FieldOr(fields, path[0]) else FieldAt(Child(fields, path[0]), path[1..])
  }

  /** The edit looks like the mask of the value in its place, in a section that exists: then it is not taken. */
  predicate Ignored(fields: map<string, Json>, path: Path, v: Json)
    requires path != []
    decreases |path|
  {
    if |path| == 1 then IsSensitiveKey(path[0]) && IsMaskedValue(v, FieldOr(fields, path[0]))
    else path[0] in fields && fields[path[0]].Obj? && Ignored(fields[path[0]].fields, path[1..], v)
  }

  /** The value that stands at the path after the edit. */
  function Taken(fields: map<string, Json>, path: Path, v: Json): Json
    requires path != []
  {
    if Ignored(fields, path, v) then FieldAt(fields, path) else v
  }

  /** The path runs through no sensitive section. */
  predicate ThroughPlain(path: Path) {
    path != [] && forall i :: 0 <= i < |path| - 1 ==> !IsSensitiveKey(path[i])
  }

  function MaskFields(redact: string -> string, fields: map<string, Json>): map<string, Json> {
    Mask(redact, Obj(fields)).fields
  }

  lemma MaskedChild(redact: string -> string, fields: map<string, Json>, key: string)
    requires !IsSensitiveKey(key)
    ensures Child(MaskFields(redact, fields), key) == MaskFields(redact, Child(fields, key))
  {
    assert MaskFields(redact, map[]) == map[];
    var masked := MaskFields(redact, fields);
    assert masked.Keys == fields.Keys;
    if key in fields {
      assert masked[key] == Mask(redact, fields[key]);
      if fields[key].Obj? {
        assert fields[key] == Obj(fields[key].fields);
        assert masked[key].fields == MaskFields(redact, fields[key].fields);
      } else {
        assert !masked[key].Obj?;
      }
    }
  }

  lemma PlainInside(path: Path)
    requires ThroughPlain(path) && |path| >= 2
    ensures ThroughPlain(path[1..]) && !IsSensitiveKey(path[0])
  {
    forall i | 0 <= i < |path[1..]| - 1 ensures !IsSensitiveKey(path[1..][i]) {
      assert path[1..][i] == path[i + 1];
    }
  }

  /**
   Restoring a masked configuration with one edit, outside of sensitive sections, gives the original
   with that edit; one that looks like the mask of what it replaces is ignored.
   */
  lemma {:induction false} RestoreOneEdit(redact: string -> string, fields: map<string, Json>, path: Path, v: Json)
    requires Unredacted(redact, Obj(fields)) && ThroughPlain(path) && IsPlain(v)
    ensures Restore(Obj(SetNested(MaskFields(redact, fields), path, v)), Obj(fields))
            == Obj(SetNested(fields, path, Taken(fields, path, v)))
    decreases |path|, 1
  {
    var edited, wanted := SetNested(MaskFields(redact, fields), path, v), SetNested(fields, path, Taken(fields, path, v));
    var back := Restore(Obj(edited), Obj(fields)).fields;
    SetNestedKeys(MaskFields(redact, fields), path, v);
    SetNestedKeys(fields, path, Taken(fields, path, v));
    assert back.Keys == edited.Keys == wanted.Keys;
    forall k | k in wanted ensures back[k] == wanted[k] {
      if k == path[0] {
        EditedKey(redact, fields, path, v);
      } else {
        UneditedKey(redact, fields, path, v, k);
      }
    }
    assert Restore(Obj(edited), Obj(fields)) == Obj(back);
    assert back == wanted;
  }

  /** A nested write touches one key of its object. */
  lemma SetNestedKeys(fields: map<string, Json>, path: Path, v: Json)
    requires path != []
    ensures SetNested(fields, path, v).Keys == fields.Keys + {path[0]}
    ensures forall k :: k in fields && k != path[0] ==> SetNested(fields, path, v)[k] == fields[k]
  {
  }

  lemma UneditedKey(redact: string -> string, fields: map<string, Json>, path: Path, v: Json, k: string)
    requires path != [] && k != path[0] && k in fields && Unredacted(redact, Obj(fields))
    ensures var edited := SetNested(MaskFields(redact, fields), path, v);
            k in edited && Restore(Obj(edited), Obj(fields)).fields[k] == fields[k]
  {
    SetNestedKeys(MaskFields(redact, fields), path, v);
    if IsSensitiveKey(k) {
      MaskedIsRecognized(fields[k]);
    } else {
      RoundTripIff(redact, fields[k]);
    }
  }

  lemma {:induction false} EditedKey(redact: string -> string, fields: map<string, Json>, path: Path, v: Json)
    requires Unredacted(redact, Obj(fields)) && ThroughPlain(path) && IsPlain(v)
    ensures Restore(Obj(SetNested(MaskFields(redact, fields), path, v)), Obj(fields)).fields[path[0]]
            == SetNested(fields, path, Taken(fields, path, v))[path[0]]
    decreases |path|, 0
  {
    var key := path[0];
    if |path| >= 2 {
      PlainInside(path);
      MaskedChild(redact, fields, key);
      if key in fields && fields[key].Obj? {
        assert fields[key] == Obj(fields[key].fields);
        RestoreOneEdit(redact, fields[key].fields, path[1..], v);
      }
      EditedBranch(redact, fields, path, v);
    }
  }

  /** The case of a nested edit, given that restoring undoes the masking around it one level down. */
  lemma EditedBranch(redact: string -> string, fields: map<string, Json>, path: Path, v: Json)
    requires |path| >= 2 && !IsSensitiveKey(path[0])
    requires Child(MaskFields(redact, fields), path[0]) == MaskFields(redact, Child(fields, path[0]))
    requires path[0] in fields && fields[path[0]].Obj? ==>
               Restore(Obj(SetNested(MaskFields(redact, fields[path[0]].fields), path[1..], v)), fields[path[0]])
               == Obj(SetNested(fields[path[0]].fields, path[1..], Taken(fields[path[0]].fields, path[1..], v)))
    ensures Restore(Obj(SetNested(MaskFields(redact, fields), path, v)), Obj(fields)).fields[path[0]]
            == SetNested(fields, path, Taken(fields, path, v))[path[0]]
  {
    var key, edited := path[0], SetNested(MaskFields(redact, fields), path, v);
    var sub := SetNested(Child(MaskFields(redact, fields), key), path[1..], v);
    assert edited[key] == Obj(sub);
    assert Restore(Obj(edited), Obj(fields)).fields[key] == Restore(Obj(sub), FieldOr(fields, key));
    if !(key in fields && fields[key].Obj?) {
      assert MaskFields(redact, map[]) == map[];
      assert sub == SetNested(map[], path[1..], v);
    }
  }

  /** Every key of `shown` shows what masking shows of the field of that name, without redacting anything. */
  predicate Shows(redact: string -> string, shown: map<string, Json>, fields: map<string, Json>) {
    forall k :: k in shown ==>
      k in fields && shown[k] == MaskedField(redact, fields, k) && (IsSensitiveKey(k) || Unredacted(redact, fields[k]))
  }

  lemma ShowsInside(redact: string -> string, shown: map<string, Json>, fields: map<string, Json>, key: string)
    requires Shows(redact, shown, fields)
    ensures Shows(redact, Child(shown, key), Child(fields, key))
    ensures !(key in fields && fields[key].Obj?) ==> Child(shown, key) == map[]
  {
    if key in shown && fields[key].Obj? {
      assert fields[key] == Obj(fields[key].fields);
    }
  }

  /** A field that was not edited comes back as it was. */
  lemma UneditedIsSaved(redact: string -> string, fields: map<string, Json>, payload: map<string, Json>, k: string)
    requires k in payload && k in fields && payload[k] == MaskedField(redact, fields, k)
    requires IsSensitiveKey(k) || Unredacted(redact, fields[k])
    ensures k in Save(fields, payload) && Save(fields, payload)[k] == fields[k]
  {
    var back := Restore(Obj(payload), Obj(fields)).fields;
    if IsSensitiveKey(k) {
      MaskedIsRecognized(fields[k]);
    } else {
      RoundTripIff(redact, fields[k]);
    }
    assert back[k] == fields[k];
    if fields[k].Obj? {
      CoversSelf(fields[k].fields);
      MergeCovering(fields[k].fields, fields[k].fields);
    }
  }

  /** The edited field, one level down. */
  lemma EditIsSaved(fields: map<string, Json>, payload: map<string, Json>, path: Path, v: Json, sub: map<string, Json>)
    requires |path| >= 2 && path[0] in payload && payload[path[0]] == Obj(sub)
    requires path[0] in fields && fields[path[0]].Obj? ==>
               Save(fields[path[0]].fields, sub)
               == SetNested(fields[path[0]].fields, path[1..], Taken(fields[path[0]].fields, path[1..], v))
    requires !(path[0] in fields && fields[path[0]].Obj?) ==> sub == SetNested(map[], path[1..], v)
    ensures path[0] in Save(fields, payload)
    ensures Save(fields, payload)[path[0]] == SetNested(fields, path, Taken(fields, path, v))[path[0]]
  {
    var key := path[0];
    var back := Restore(Obj(payload), Obj(fields)).fields;
    assert back[key] == Restore(Obj(sub), FieldOr(fields, key));
    if key in fields && fields[key].Obj? {
      assert fields[key] == Obj(fields[key].fields);
      assert Save(fields, payload)[key] == Obj(Save(fields[key].fields, sub));
    }
  }

  /** What saving an edited display gives, for any part of the display that is sent back with the edit. */
  lemma {:induction false} SaveEditOf(redact: string -> string, shown: map<string, Json>, fields: map<string, Json>, path: Path,
                                      v: Json)
    requires Shows(redact, shown, fields) && path != [] && IsPlain(v)
    ensures Save(fields, SetNested(shown, path, v)) == SetNested(fields, path, Taken(fields, path, v))
    decreases |path|, 1
  {
    var payload := SetNested(shown, path, v);
    EditedKeyIsSaved(redact, shown, fields, path, v);
    SetNestedKeys(shown, path, v);
    SavedKeys(fields, payload);
    forall k | k in fields && k != path[0] ensures k in Save(fields, payload) && Save(fields, payload)[k] == fields[k] {
      OtherIsSaved(redact, shown, fields, path, v, k);
    }
    SetNestedKeys(fields, path, Taken(fields, path, v));
    SameFields(Save(fields, payload), SetNested(fields, path, Taken(fields, path, v)), fields, path[0]);
  }

  lemma SameFields(a: map<string, Json>, b: map<string, Json>, fields: map<string, Json>, key: string)
    requires a.Keys == b.Keys == fields.Keys + {key} && a[key] == b[key]
    requires forall k :: k in fields && k != key ==> a[k] == fields[k] && b[k] == fields[k]
    ensures a == b
  {
  }

  lemma SavedKeys(fields: map<string, Json>, payload: map<string, Json>)
    ensures Save(fields, payload).Keys == fields.Keys + payload.Keys
  {
  }

  lemma SetNestedHead(fields: map<string, Json>, path: Path, v: Json)
    requires path != []
    ensures path[0] in SetNested(fields, path, v)
    ensures SetNested(fields, path, v)[path[0]]
            == if |path| == 1 then v else Obj(SetNested(Child(fields, path[0]), path[1..], v))
  {
  }

  lemma {:induction false} EditedKeyIsSaved(redact: string -> string, shown: map<string, Json>, fields: map<string, Json>,
                                            path: Path, v: Json)
    requires Shows(redact, shown, fields) && path != [] && IsPlain(v)
    ensures var saved := Save(fields, SetNested(shown, path, v));
            && path[0] in saved && path[0] in SetNested(fields, path, Taken(fields, path, v))
            && saved[path[0]] == SetNested(fields, path, Taken(fields, path, v))[path[0]]
    decreases |path|, 0
  {
    var key, payload := path[0], SetNested(shown, path, v);
    SetNestedHead(shown, path, v);
    SetNestedHead(fields, path, Taken(fields, path, v));
    if |path| >= 2 {
      ShowsInside(redact, shown, fields, key);
      if key in fields && fields[key].Obj? {
        assert fields[key] == Obj(fields[key].fields);
        SaveEditOf(redact, Child(shown, key), fields[key].fields, path[1..], v);
      }
      EditIsSaved(fields, payload, path, v, SetNested(Child(shown, key), path[1..], v));
    } else {
      PlainEditIsSaved(fields, payload, path, v);
    }
  }

  lemma OtherIsSaved(redact: string -> string, shown: map<string, Json>, fields: map<string, Json>, path: Path, v: Json, k: string)
    requires Shows(redact, shown, fields) && path != []
    requires k in fields && k != path[0]
    ensures k in Save(fields, SetNested(shown, path, v)) && Save(fields, SetNested(shown, path, v))[k] == fields[k]
  {
    var payload := SetNested(shown, path, v);
    SetNestedKeys(shown, path, v);
    if k in payload {
      UneditedIsSaved(redact, fields, payload, k);
    } else {
      assert k !in Restore(Obj(payload), Obj(fields)).fields;
    }
  }

  lemma PlainEditIsSaved(fields: map<string, Json>, payload: map<string, Json>, path: Path, v: Json)
    requires |path| == 1 && path[0] in payload && payload[path[0]] == v && IsPlain(v)
    ensures path[0] in Save(fields, payload) && Save(fields, payload)[path[0]] == Taken(fields, path, v)
  {
    var cur := FieldOr(fields, path[0]);
    var back := Restore(Obj(payload), Obj(fields)).fields;
    assert Ignored(fields, path, v) == (IsSensitiveKey(path[0]) && IsMaskedValue(v, cur)) && FieldAt(fields, path) == cur;
    assert Restore(v, cur) == v;
    assert back[path[0]] == if IsSensitiveKey(path[0]) && IsMaskedValue(v, cur) then cur else v;
    if path[0] in fields && cur.Obj? {
      assert cur == Obj(cur.fields);
      CoversSelf(cur.fields);
      MergeCovering(cur.fields, cur.fields);
    }
  }

  /**
   Editing one field of the masked configuration and saving it is editing that field of the real one,
   inside sensitive sections too: every secret and every other field is kept. The edit takes effect
   exactly when it does not look like the mask of the value it replaces, or is that value; otherwise the
   old value stays, and a missing one becomes null.
   */
  lemma SaveOneEdit(redact: string -> string, current: map<string, Json>, path: Path, v: Json)
    requires Unredacted(redact, Obj(current)) && path != [] && IsPlain(v)
    ensures var saved := Save(current, SetNested(MaskFields(redact, current), path, v));
            && saved == SetNested(current, path, Taken(current, path, v))
            && (saved == SetNested(current, path, v) <==> !Ignored(current, path, v) || v == FieldAt(current, path))
  {
    SaveEditOf(redact, MaskFields(redact, current), current, path, v);
    SetThenGet(current, path, v);
    SetThenGet(current, path, Taken(current, path, v));
  }

  // ----- Where saving goes wrong: lists are matched by position -----

  /** Some elements of a list, in any order. */
  function Choose(items: seq<Json>, chosen: seq<nat>): seq<Json>
    requires forall j :: 0 <= j < |chosen| ==> chosen[j] < |items|
  {
    seq(|chosen|, j requires 0 <= j < |chosen| => items[chosen[j]])
  }

  /**
   Sending back some elements of a masked list, in any order, gives these elements exactly when each
   of them can be recovered from the one that is stored at its new position.
   */
  lemma ChoiceRoundTripsIff(redact: string -> string, items: seq<Json>, chosen: seq<nat>)
    requires forall j :: 0 <= j < |chosen| ==> chosen[j] < |items|
    ensures Mask(redact, Arr(items)).Arr? && |Mask(redact, Arr(items)).items| == |items|
    ensures Restore(Arr(Choose(Mask(redact, Arr(items)).items, chosen)), Arr(items)) == Arr(Choose(items, chosen))
            <==> forall j :: 0 <= j < |chosen| ==> Recovers(redact, ItemOr(items, j), items[chosen[j]])
  {
    var sent := Choose(Mask(redact, Arr(items)).items, chosen);
    assert Mask(redact, Arr(Choose(items, chosen))).items == sent;
    RestoreMaskIff(redact, Arr(items), Arr(Choose(items, chosen)));
  }

  function RemoveAt(items: seq<Json>, i: nat): seq<Json>
    requires i < |items|
  {
    items[..i] + items[i + 1..]
  }

  lemma OwnMaskRecovers(redact: string -> string, v: Json)
    ensures Recovers(redact, v, v) <==> Unredacted(redact, v)
  {
    RestoreMaskIff(redact, v, v);
    RoundTripIff(redact, v);
  }

  /** Element `j + 1` can be recovered from its left neighbour. */
  predicate RecoversFromLeft(redact: string -> string, items: seq<Json>, j: nat)
    requires j + 1 < |items|
  {
    Recovers(redact, items[j], items[j + 1])
  }

  /** The element that stands at `j` after the deletion. */
  function Shifted(i: nat, j: nat): nat {
    if j < i then j else j + 1
  }

  lemma ShiftedRecovers(redact: string -> string, items: seq<Json>, i: nat, j: nat)
    requires i < |items| && j < |items| - 1
    ensures Recovers(redact, ItemOr(items, j), items[Shifted(i, j)])
            <==> if j < i then Unredacted(redact, items[j]) else RecoversFromLeft(redact, items, j)
  {
    if j < i {
      OwnMaskRecovers(redact, items[j]);
    }
  }

  /**
   Deleting an element of a masked list and restoring round-trips exactly when the elements before it
   are not redacted and each element after it can be recovered from its left neighbour, whose place it takes.
   */
  lemma DeletionShiftsSecrets(redact: string -> string, items: seq<Json>, i: nat)
    requires i < |items|
    ensures Mask(redact, Arr(items)).Arr? && |Mask(redact, Arr(items)).items| == |items|
    ensures Restore(Arr(RemoveAt(Mask(redact, Arr(items)).items, i)), Arr(items)) == Arr(RemoveAt(items, i))
            <==> (forall j :: 0 <= j < i ==> Unredacted(redact, items[j]))
                 && (forall j :: i <= j < |items| - 1 ==> RecoversFromLeft(redact, items, j))
  {
    var chosen: seq<nat> := seq(|items| - 1, j requires 0 <= j < |items| - 1 => Shifted(i, j));
    var masked := Mask(redact, Arr(items)).items;
    assert Choose(items, chosen) == RemoveAt(items, i) && Choose(masked, chosen) == RemoveAt(masked, i);
    ChoiceRoundTripsIff(redact, items, chosen);
    forall j | 0 <= j < |chosen|
      ensures Recovers(redact, ItemOr(items, j), items[chosen[j]])
              <==> if j < i then Unredacted(redact, items[j]) else RecoversFromLeft(redact, items, j)
    {
      ShiftedRecovers(redact, items, i, j);
    }
    assert (forall j :: 0 <= j < |chosen| ==> Recovers(redact, ItemOr(items, j), items[chosen[j]]))
      <==> forall j :: 0 <= j < |chosen| ==> if j < i then Unredacted(redact, items[j]) else RecoversFromLeft(redact, items, j);
  }

  /** It does go wrong: with the first of two tokens deleted, the second entry gets the deleted token. */
  lemma DeletionExample(redact: string -> string)
    ensures var one, two := Obj(map["token" := Str("one")]), Obj(map["token" := Str("two")]);
            && Mask(redact, Arr([one, two])) == Arr([Obj(map["token" := Str("***")]), Obj(map["token" := Str("***")])])
            && Restore(Arr([Obj(map["token" := Str("***")])]), Arr([one, two])) == Arr([one])
            && !Recovers(redact, one, two)
  {
    var one, two, shown := Obj(map["token" := Str("one")]), Obj(map["token" := Str("two")]), Obj(map["token" := Str("***")]);
    TokenIsSensitive();
    MaskOneSecret(redact, "token", Str("one"));
    MaskOneSecret(redact, "token", Str("two"));
    assert Stars(3) == "***";
    assert Mask(redact, Arr([one, two])).items == [shown, shown];
    assert Restore(shown, one).fields == map["token" := Str("one")];
    assert Restore(Arr([shown]), Arr([one, two])).items == [one];
    assert two.fields["token"] == Str("two");
  }

  lemma TokenIsSensitive()
    ensures IsSensitiveKey("token")
  {
    assert Lower("token") == "token" && MatchesAt("token", "token", 0);
    assert "token" in SENSITIVE_FIELD_NAMES;
  }

  lemma MaskOneSecret(redact: string -> string, key: string, v: Json)
    requires IsSensitiveKey(key)
    ensures Mask(redact, Obj(map[key := v])) == Obj(map[key := MaskValue(v)])
  {
    assert Mask(redact, Obj(map[key := v])).fields == map[key := MaskValue(v)];
  }

  // ----- Masking twice -----

  lemma MaskSecretTwice(s: string)
    ensures |MaskSecret(s)| == |s| && MaskSecret(MaskSecret(s)) == MaskSecret(s)
  {
    var m := MaskSecret(s);
    if |s| > 8 {
      assert m[..4] == s[..4] && m[|m| - 4..] == s[|s| - 4..];
    }
  }

  /** Masking what is already masked changes nothing, if redacting twice is redacting once. */
  lemma {:induction false} MaskIdempotent(redact: string -> string, j: Json)
    requires forall s :: redact(redact(s)) == redact(s)
    ensures Mask(redact, Mask(redact, j)) == Mask(redact, j)
  {
    var once := Mask(redact, j);
    match j
    case Obj(fields) =>
      forall k | k in fields ensures Mask(redact, once).fields[k] == once.fields[k] {
        if !IsSensitiveKey(k) {
          MaskIdempotent(redact, fields[k]);
        } else if fields[k].Str? {
          MaskSecretTwice(fields[k].s);
        } else {
          assert MaskSecret("***") == "***" && MaskSecret("") == "";
        }
      }
      assert Mask(redact, once).fields.Keys == once.fields.Keys;
    case Arr(items) =>
      forall i | 0 <= i < |items| ensures Mask(redact, once).items[i] == once.items[i] {
        MaskIdempotent(redact, items[i]);
      }
    case _ =>
  }

  // ----- The loops of the program -----

  function MaskedField(redact: string -> string, fields: map<string, Json>, k: string): Json
    requires k in fields
  {
    if IsSensitiveKey(k) then MaskValue(fields[k]) else Mask(redact, fields[k])
  }

  lemma MaskedFields(redact: string -> string, fields: map<string, Json>, out: map<string, Json>)
    requires forall k :: k in out <==> k in fields
    requires forall k :: k in out ==> out[k] == MaskedField(redact, fields, k)
    ensures Obj(out) == Mask(redact, Obj(fields))
  {
  }

  method MaskSensitiveData(redact: string -> string, data: Json) returns (masked: Json)
    ensures masked == Mask(redact, data)
    decreases data
  {
    match data {
      case Obj(fields) =>
        var out: map<string, Json> := map[];
        var todo := fields.Keys;
        while todo != {}
          invariant todo <= fields.Keys
          invariant forall k :: k in out <==> k in fields && k !in todo
          invariant forall k :: k in out ==> out[k] == MaskedField(redact, fields, k)
          decreases |todo|
        {
          var k :| k in todo;
          var v := fields[k];
          var shown;
          if IsSensitiveKey(k) {
            shown := if v.Str? then Str(MaskSecret(v.s)) else if v.Null? then Str("") else Str("***");
          } else {
            shown := MaskSensitiveData(redact, v);
          }
          assert shown == MaskedField(redact, fields, k);
          out := out[k := shown];
          todo := todo - {k};
        }
        MaskedFields(redact, fields, out);
        masked := Obj(out);
      case Arr(items) =>
        var out: seq<Json> := [];
        for i := 0 to |items|
          invariant out == seq(i, n requires 0 <= n < i => Mask(redact, items[n]))
        {
          var shown := MaskSensitiveData(redact, items[i]);
          out := out + [shown];
        }
        masked := Arr(out);
      case Str(s) => masked := Str(redact(s));
      case _ => masked := data;
    }
  }

  method RestoreMaskedValues(incoming: Json, current: Json) returns (restored: Json)
    ensures restored == Restore(incoming, current)
    decreases incoming
  {
    if incoming.Obj? && current.Obj? {
      var out: map<string, Json> := map[];
      var todo := incoming.fields.Keys;
      while todo != {}
        invariant todo <= incoming.fields.Keys
        invariant forall k :: k in out <==> k in incoming.fields && k !in todo
        invariant forall k :: k in out ==> out[k] == RestoredField(incoming.fields, current.fields, k)
        decreases |todo|
      {
        var k :| k in todo;
        var v, cur := incoming.fields[k], FieldOr(current.fields, k);
        var back := cur;
        if !(IsSensitiveKey(k) && IsMaskedValue(v, cur)) {
          back := RestoreMaskedValues(v, cur);
        }
        out := out[k := back];
        todo := todo - {k};
      }
      RestoredFields(incoming.fields, current.fields, out);
      return Obj(out);
    }
    if incoming.Arr? && current.Arr? {
      var out: seq<Json> := [];
      for i := 0 to |incoming.items|
        invariant out == seq(i, n requires 0 <= n < i =>
                               Restore(incoming.items[n], if n < |current.items| then current.items[n] else Null))
      {
        var back := RestoreMaskedValues(incoming.items[i], if i < |current.items| then current.items[i] else Null);
        out := out + [back];
      }
      return Arr(out);
    }
    return incoming;
  }

  function RestoredField(incoming: map<string, Json>, current: map<string, Json>, k: string): Json
    requires k in incoming
  {
    var cur := FieldOr(current, k);
    if IsSensitiveKey(k) && IsMaskedValue(incoming[k], cur) then cur else Restore(incoming[k], cur)
  }

  lemma RestoredFields(incoming: map<string, Json>, current: map<string, Json>, out: map<string, Json>)
    requires forall k :: k in out <==> k in incoming
    requires forall k :: k in out ==> out[k] == RestoredField(incoming, current, k)
    ensures Obj(out) == Restore(Obj(incoming), Obj(current))
  {
  }

  function MergedField(base: map<string, Json>, patch: map<string, Json>, k: string): Json
    requires k in patch
  {
    if patch[k].Obj? && k in base && base[k].Obj? then Obj(DeepMerge(base[k].fields, patch[k].fields)) else patch[k]
  }

  /** The merge with only the patch keys in `done` taken over. */
  function MergeUpTo(base: map<string, Json>, patch: map<string, Json>, done: set<string>): map<string, Json>
    requires done <= patch.Keys
  {
    map k | k in base.Keys + done :: if k in done then MergedField(base, patch, k) else base[k]
  }

  lemma MergeOneMore(base: map<string, Json>, patch: map<string, Json>, done: set<string>, k: string)
    requires done <= patch.Keys && k in patch && k !in done
    ensures MergeUpTo(base, patch, done)[k := MergedField(base, patch, k)] == MergeUpTo(base, patch, done + {k})
    ensures k in MergeUpTo(base, patch, done) <==> k in base
    ensures k in base ==> MergeUpTo(base, patch, done)[k] == base[k]
  {
  }

  lemma MergeAll(base: map<string, Json>, patch: map<string, Json>)
    ensures MergeUpTo(base, patch, patch.Keys) == DeepMerge(base, patch)
    ensures MergeUpTo(base, patch, {}) == base
  {
  }

  method DeepMergeDict(base: map<string, Json>, patch: map<string, Json>) returns (merged: map<string, Json>)
    ensures merged == DeepMerge(base, patch)
    decreases Obj(patch)
  {
    merged := base;
    MergeAll(base, patch);
    var done: set<string> := {};
    while done != patch.Keys
      invariant done <= patch.Keys && merged == MergeUpTo(base, patch, done)
      decreases |patch.Keys - done|
    {
      var k :| k in patch.Keys - done;
      MergeOneMore(base, patch, done, k);
      var value := patch[k];
      if value.Obj? && k in merged && merged[k].Obj? {
        var inner := DeepMergeDict(merged[k].fields, value.fields);
        value := Obj(inner);
      }
      merged := merged[k := value];
      assert patch.Keys - (done + {k}) < patch.Keys - done;
      done := done + {k};
    }
  }
}
