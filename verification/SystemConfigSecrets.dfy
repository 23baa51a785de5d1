/** What masking hides and what it shows, character by character, and which edits of a secret are taken. */
module SystemConfigSecrets {
  import opened Prelude
  import opened Text
  import opened ConfigTree
  import opened SystemConfig

  // ----- Sensitive keys -----

  /** The key contains the word, in any mixture of cases. */
  predicate Mentions(key: string, word: string) {
    exists i: nat :: i + |word| <= |key| && SpellsAt(key, word, i)
  }

  predicate SpellsAt(key: string, word: string, i: nat)
    requires i + |word| <= |key|
  {
    Spells(key[i..i + |word|], word)
  }

  lemma ContainsIff(key: string, word: string)
    requires NoCapitals(word)
    ensures Contains(Lower(key), word) <==> Mentions(key, word)
  {
    forall i: nat | i + |word| <= |key| ensures MatchesAt(Lower(key), word, i) <==> SpellsAt(key, word, i) {
      assert Lower(key)[i..i + |word|] == Lower(key[i..i + |word|]);
      LowerSpells(key[i..i + |word|], word);
    }
    if Mentions(key, word) {
      var i: nat :| i + |word| <= |key| && SpellsAt(key, word, i);
      assert MatchesAt(Lower(key), word, i);
    }
  }

  /** A key is sensitive exactly when it contains one of ten words in any mixture of cases. */
  lemma SensitiveIff(key: string)
    ensures IsSensitiveKey(key) <==>
              || Mentions(key, "password") || Mentions(key, "passwd") || Mentions(key, "token")
              || Mentions(key, "api_key") || Mentions(key, "apikey") || Mentions(key, "secret")
              || Mentions(key, "cookie") || Mentions(key, "authorization") || Mentions(key, "auth")
              || Mentions(key, "key")
  {
    forall name | name in SENSITIVE_FIELD_NAMES ensures Contains(Lower(key), name) <==> Mentions(key, name) {
      ContainsIff(key, name);
    }
  }

  // ----- What a mask shows -----

  /** The mask of a secret: its own first and last four characters if it has more than eight, stars elsewhere. */
  predicate Hides(mask: string, secret: string) {
    && |mask| == |secret|
    && forall i :: 0 <= i < |secret| ==>
         mask[i] == if |secret| > 8 && (i < 4 || i >= |secret| - 4) then secret[i] else '*'
  }

  lemma MaskSecretHides(secret: string)
    ensures Hides(MaskSecret(secret), secret)
  {
  }

  lemma HidesOnce(a: string, b: string, secret: string)
    requires Hides(a, secret) && Hides(b, secret)
    ensures a == b
  {
  }

  /** A place in a configuration: a key of an object or a position in a list. */
  datatype Place = Field(key: string) | Item(index: nat)

  function Find(j: Json, places: seq<Place>): Option<Json> {
    if places == [] then Some(j)
    else match places[0]
      case Field(key) => if j.Obj? && key in j.fields then Find(j.fields[key], places[1..]) else None
      case Item(i) => if j.Arr? && i < |j.items| then Find(j.items[i], places[1..]) else None
  }

  predicate Plain(places: seq<Place>) {
    forall i :: 0 <= i < |places| && places[i].Field? ==> !IsSensitiveKey(places[i].key)
  }

  /** Outside sensitive fields masking works place by place. */
  lemma {:induction false} MaskedPlace(redact: string -> string, j: Json, places: seq<Place>)
    requires Plain(places)
    ensures Find(Mask(redact, j), places)
            == if Find(j, places).Some? then Some(Mask(redact, Find(j, places).value)) else None
    decreases |places|
  {
    if places != [] {
      assert Plain(places[1..]) by {
        forall i | 0 <= i < |places[1..]| && places[1..][i].Field? ensures !IsSensitiveKey(places[1..][i].key) {
          assert places[1..][i] == places[i + 1];
        }
      }
      match places[0]
      case Field(key) =>
        if j.Obj? && key in j.fields {
          MaskedPlace(redact, j.fields[key], places[1..]);
        }
      case Item(i) =>
        if j.Arr? && i < |j.items| {
          MaskedPlace(redact, j.items[i], places[1..]);
        }
    }
  }

  /**
   Masking hides. However deep a sensitive field lies in objects and lists, what is shown of a string there has
   its length and nothing of it but the first and last four characters, and those only of more than eight; an
   absent value shows as an empty text and any other as three stars.
   */
  lemma MaskHides(redact: string -> string, j: Json, places: seq<Place>, key: string)
    requires Plain(places) && IsSensitiveKey(key) && Find(j, places + [Field(key)]).Some?
    ensures var secret, shown := Find(j, places + [Field(key)]).value, Find(Mask(redact, j), places + [Field(key)]);
            && shown.Some? && shown.value.Str?
            && (secret.Str? ==> Hides(shown.value.s, secret.s))
            && (secret.Null? ==> shown.value.s == "")
            && (!secret.Str? && !secret.Null? ==> shown.value.s == "***")
  {
    FindLast(j, places, key);
    FindLast(Mask(redact, j), places, key);
    MaskedPlace(redact, j, places);
    var fields := Find(j, places).value.fields;
    assert Mask(redact, Obj(fields)).fields[key] == MaskValue(fields[key]);
    if fields[key].Str? {
      MaskSecretHides(fields[key].s);
    }
  }

  lemma {:induction false} FindLast(j: Json, places: seq<Place>, key: string)
    ensures Find(j, places + [Field(key)])
            == match Find(j, places)
               case Some(Obj(fields)) => if key in fields then Some(fields[key]) else None
               case _ => None
    decreases |places|
  {
    if places == [] {
      assert ([] + [Field(key)])[1..] == [];
    } else {
      assert (places + [Field(key)])[1..] == places[1..] + [Field(key)];
      match places[0]
      case Field(k) =>
        if j.Obj? && k in j.fields {
          FindLast(j.fields[k], places[1..], key);
        }
      case Item(i) =>
        if j.Arr? && i < |j.items| {
          FindLast(j.items[i], places[1..], key);
        }
    }
  }

  /** Everything else shows as it is, up to the redaction of free text. */
  lemma MaskShows(redact: string -> string, j: Json, places: seq<Place>)
    requires Plain(places) && Find(j, places).Some?
    ensures var v, shown := Find(j, places).value, Find(Mask(redact, j), places);
            && shown.Some?
            && (v.Str? ==> shown.value == Str(redact(v.s)))
            && (v.Null? || v.Bool? || v.Num? ==> shown.value == v)
            && (v.Arr? ==> shown.value.Arr? && |shown.value.items| == |v.items|)
            && (v.Obj? ==> shown.value.Obj? && shown.value.fields.Keys == v.fields.Keys)
  {
    MaskedPlace(redact, j, places);
  }

  /** Two secrets that agree where masks show them cannot be told apart. */
  lemma MaskTellsNothingElse(redact: string -> string, j: Json, k: Json, places: seq<Place>, key: string)
    requires Plain(places) && IsSensitiveKey(key)
    requires var a, b := Find(j, places + [Field(key)]), Find(k, places + [Field(key)]);
             && a.Some? && a.value.Str? && b.Some? && b.value.Str? && |a.value.s| == |b.value.s|
             && (|a.value.s| > 8 ==>
                   a.value.s[..4] == b.value.s[..4] && a.value.s[|a.value.s| - 4..] == b.value.s[|a.value.s| - 4..])
    ensures Find(Mask(redact, j), places + [Field(key)]) == Find(Mask(redact, k), places + [Field(key)])
  {
    MaskHides(redact, j, places, key);
    MaskHides(redact, k, places, key);
    var a, b := Find(j, places + [Field(key)]).value.s, Find(k, places + [Field(key)]).value.s;
    SameEnds(a, b);
    HidesOnce(Find(Mask(redact, j), places + [Field(key)]).value.s, Find(Mask(redact, k), places + [Field(key)]).value.s, a);
  }

  lemma SameEnds(a: string, b: string)
    requires |a| == |b| && (|a| > 8 ==> a[..4] == b[..4] && a[|a| - 4..] == b[|a| - 4..])
    ensures forall mask :: Hides(mask, a) <==> Hides(mask, b)
  {
    var n := |a|;
    forall i | 0 <= i < n && n > 8 && (i < 4 || i >= n - 4) ensures a[i] == b[i] {
      if i < 4 {
        assert a[..4][i] == b[..4][i];
      } else {
        assert a[n - 4..][i - (n - 4)] == b[n - 4..][i - (n - 4)];
      }
    }
  }

  // ----- Which edits of a secret are taken -----

  /**
   A text sent back for a secret replaces it, unless it is empty, three stars, or the mask of the secret: then the
   stored secret stays, whatever it is, and a missing one stays missing.
   */
  lemma SecretEditTakenIff(incoming: map<string, Json>, current: map<string, Json>, key: string)
    requires key in incoming && incoming[key].Str? && IsSensitiveKey(key)
    ensures var text, restored := incoming[key].s, Restore(Obj(incoming), Obj(current));
            var stored := if key in current then current[key] else Null;
            var ignored := text == "" || text == "***" || (stored.Str? && stored.s != "" && Hides(text, stored.s));
            && restored.Obj? && key in restored.fields
            && restored.fields[key] == if ignored then stored else Str(text)
  {
    var text, stored := incoming[key].s, FieldOr(current, key);
    if stored.Str? {
      MaskSecretHides(stored.s);
      if Hides(text, stored.s) {
        HidesOnce(text, MaskSecret(stored.s), stored.s);
      }
    }
    assert Restore(Str(text), stored) == Str(text);
  }
}
