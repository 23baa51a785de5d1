/** Which fields of a webhook's item decide its type, its aggregate key and its name. */
module WebhookFields {
  import opened Prelude
  import opened Text
  import opened Webhooks

  // ----- White space -----

  /** A blank, a tab, one of the line and page breaks, or one of the four separators of ASCII. */
  predicate IsWhite(c: char) {
    c as int in {9, 10, 11, 12, 13, 28, 29, 30, 31, 32}
  }

  predicate AllWhite(s: string) {
    forall i :: 0 <= i < |s| ==> IsWhite(s[i])
  }

  /** A text without white space at its ends. */
  predicate Trimmed(s: string) {
    s != "" ==> !IsWhite(s[0]) && !IsWhite(s[|s| - 1])
  }

  lemma SpaceIsWhite(c: char)
    ensures IsSpace(c) <==> IsWhite(c)
  {
  }

  lemma {:induction false} StripLeftOf(left: string, s: string)
    requires AllWhite(left) && (s != "" ==> !IsWhite(s[0]))
    ensures StripLeft(left + s) == s
  {
    if left == "" {
      assert left + s == s;
      if s != "" {
        SpaceIsWhite(s[0]);
      }
    } else {
      SpaceIsWhite(left[0]);
      assert (left + s)[1..] == left[1..] + s;
      StripLeftOf(left[1..], s);
    }
  }

  lemma {:induction false} StripRightOf(s: string, right: string)
    requires AllWhite(right) && (s != "" ==> !IsWhite(s[|s| - 1]))
    ensures StripRight(s + right) == s
  {
    if right == "" {
      assert s + right == s;
      if s != "" {
        SpaceIsWhite(s[|s| - 1]);
      }
    } else {
      var n := |right| - 1;
      SpaceIsWhite(right[n]);
      assert (s + right)[..|s + right| - 1] == s + right[..n];
      StripRightOf(s, right[..n]);
    }
  }

  /** There is only one way to take the white space off both ends. */
  lemma StripIs(left: string, s: string, right: string)
    requires AllWhite(left) && AllWhite(right) && Trimmed(s)
    ensures Strip(left + s + right) == s
  {
    if s == "" {
      assert left + s + right == (left + right) + "";
      StripLeftOf(left + right, "");
    } else {
      assert left + s + right == left + (s + right);
      StripLeftOf(left, s + right);
      StripRightOf(s, right);
    }
  }

  lemma MarginsAreWhite(s: string) returns (left: string, right: string)
    ensures s == left + Strip(s) + right && AllWhite(left) && AllWhite(right) && Trimmed(Strip(s))
  {
    left, right := StripTakesMargins(s);
    forall c ensures IsSpace(c) <==> IsWhite(c) {
      SpaceIsWhite(c);
    }
    assert forall i :: 0 <= i < |left| ==> left[i] in left;
    assert forall i :: 0 <= i < |right| ==> right[i] in right;
  }

  // ----- The first field that counts -----

  /** A missing field, null, zero, an empty text and whatever else is false count as nothing. */
  predicate Counts(field: Field) {
    match field
    case Null => false
    case Str(s) => s != ""
    case Num(n) => n != 0
    case Other(truth, _) => truth
  }

  /** The text is that of the first of the named fields that counts, or the default if none does. */
  predicate IsFirst(text: string, item: Item, names: seq<string>, default: string) {
    && ((forall i :: 0 <= i < |names| ==> !Counts(At(item, names[i]))) ==> text == default)
    && forall i :: 0 <= i < |names| && Counts(At(item, names[i]))
                   && (forall j :: 0 <= j < i ==> !Counts(At(item, names[j]))) ==>
         text == At(item, names[i]).Show()
  }

  /** Series, season and name of an episode, field by field. */
  lemma SeriesAndSeason(item: Item)
    ensures IsFirst(SeriesOf(item), item, ["SeriesId", "SeriesName", "ParentId", "Album"], "unknown-series")
    ensures IsFirst(SeasonOf(item), item, ["ParentIndexNumber", "SeasonNumber"], "all")
  {
    var series, season := ["SeriesId", "SeriesName", "ParentId", "Album"], ["ParentIndexNumber", "SeasonNumber"];
    assert series[0] == "SeriesId" && series[1] == "SeriesName" && series[2] == "ParentId" && series[3] == "Album";
    assert season[0] == "ParentIndexNumber" && season[1] == "SeasonNumber";
  }

  /**
   The name shown for an episode: its series, and its season unless the item has none. A season of zero is shown
   when no other is given, although it has no part in the key.
   */
  lemma NameShows(item: Item)
    ensures var main, other := At(item, "ParentIndexNumber"), At(item, "SeasonNumber");
            var none := !Counts(main) && other.Null?;
            exists series :: IsFirst(series, item, ["SeriesName", "Series", "Name"], "Episode")
              && AggregateName(item) == if none then series
                                        else series + " - Season " + if Counts(main) then main.Show() else other.Show()
  {
    var names := ["SeriesName", "Series", "Name"];
    var series := At(item, "SeriesName").Or(At(item, "Series")).Or(At(item, "Name")).Or(Str("Episode")).Show();
    assert names[0] == "SeriesName" && names[1] == "Series" && names[2] == "Name";
    assert IsFirst(series, item, names, "Episode");
  }

  /** The text of the item's type, before white space is taken off. */
  function TypeText(item: Item): (text: string)
    ensures IsFirst(text, item, ["Type", "ItemType"], "")
  {
    var names := ["Type", "ItemType"];
    assert names[0] == "Type" && names[1] == "ItemType";
    At(item, "Type").Or(At(item, "ItemType")).Or(Str("")).Show()
  }

  /** The type reads "episode" in some mixture of cases between white space. */
  predicate ReadsEpisode(text: string, left: string, word: string, right: string) {
    text == left + word + right && AllWhite(left) && AllWhite(right) && Spells(word, "episode")
  }

  lemma EpisodeIsTrimmed(word: string)
    requires Spells(word, "episode")
    ensures Trimmed(word)
  {
    var e := "episode";
    assert |e| == 7 && e[0] == 'e' && e[6] == 'e';
    assert SameLetter(word[0], e[0]) && SameLetter(word[6], e[6]);
  }

  /**
   Which events are aggregated, on the fields of the item: those whose first of the two type fields that counts
   reads "episode", in whatever cases and with whatever white space around it.
   */
  lemma EpisodeIff(e: Webhook)
    ensures IsEpisode(EntryOf(e))
            <==> exists left, word, right :: ReadsEpisode(TypeText(e.item), left, word, right)
  {
    var text := TypeText(e.item);
    EntryKinds(e);
    LowerSpells(Strip(text), "episode");
    UnknownIsNoEpisode();
    if IsEpisode(EntryOf(e)) {
      var left, right := MarginsAreWhite(text);
      assert ReadsEpisode(text, left, Strip(text), right);
    }
    if left, word, right :| ReadsEpisode(text, left, word, right) {
      EpisodeIsTrimmed(word);
      StripIs(left, word, right);
    }
  }

  lemma UnknownIsNoEpisode()
    ensures Lower("Unknown") != "episode" && |"episode"| == 7 && NoCapitals("episode")
  {
    assert Lower("Unknown")[0] == 'u';
  }

  /** What is logged of any other event: its type with the white space off, "Unknown" for none, and its id and name unless they are empty. */
  lemma OthersAsTheyAre(e: Webhook)
    requires !IsEpisode(EntryOf(e))
    ensures var entry := EntryOf(e);
            && (exists left, right :: AllWhite(left) && AllWhite(right)
                  && (|| (Trimmed(entry.itemType) && TypeText(e.item) == left + entry.itemType + right)
                      || (entry.itemType == "Unknown" && TypeText(e.item) == left + right)))
            && (entry.itemId == if Counts(At(e.item, "Id")) && At(e.item, "Id").Show() != "" then Some(At(e.item, "Id").Show()) else None)
            && (entry.itemName == if Counts(At(e.item, "Name")) && At(e.item, "Name").Show() != "" then Some(At(e.item, "Name").Show()) else None)
  {
    EntryKinds(e);
    var left, right := MarginsAreWhite(TypeText(e.item));
  }
}
