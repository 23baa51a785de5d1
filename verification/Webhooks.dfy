/**
 Webhook aggregation of app/api/emby.py: episode events of one key that follow each other closely
 share a row of the event log, every other event gets a row of its own. The rows of a key turn out to
 be its events cut into sessions. The table is a sequence of rows, and a call reads the clock once.
 */
module Webhooks {
  import opened Prelude
  import opened Text

  /** A JSON value of an item, as far as truth and printing go. */
  datatype Field = Null | Str(s: string) | Num(n: int) | Other(truth: bool, shown: string)
  {
    predicate Truthy() {
      match this
      case Null => false
      case Str(s) => s != ""
      case Num(n) => n != 0
      case Other(truth, _) => truth
    }

    function Show(): string {
      match this
      case Null => "None"
      case Str(s) => s
      case Num(n) => if n < 0 then "-" + Decimal(-n) else Decimal(n)
      case Other(_, shown) => shown
    }

    function Or(that: Field): Field {
      if Truthy() then this else that
    }
  }

  type Item = map<string, Field>

  function At(item: Item, name: string): Field {
    if name in item then item[name] else Null
  }

  datatype Webhook = Webhook(eventType: string, item: Item, body: string, window: int, now: real)

  datatype Payload =
    | Plain(body: string)
    | Aggregated(latest: string, windowSeconds: int, count: nat, key: string)

  datatype Row = Row(eventType: string, itemId: Option<string>, itemName: Option<string>, itemType: string,
                     count: nat, payload: Payload, createdAt: real, updatedAt: real)

  // ----- Item types, keys and names -----

  predicate IsSpace(c: char) {
    c == ' ' || '\t' <= c <= '\r' || '\U{1C}' <= c <= '\U{1F}'
  }

  function StripLeft(s: string): string {
    if s != "" && IsSpace(s[0]) then StripLeft(s[1..]) else s
  }

  function StripRight(s: string): string {
    if s != "" && IsSpace(s[|s| - 1]) then StripRight(s[..|s| - 1]) else s
  }

  function Strip(s: string): string {
    StripRight(StripLeft(s))
  }

  predicate AllSpace(s: string) {
    forall c :: c in s ==> IsSpace(c)
  }

  lemma {:induction false} LeftMargin(s: string) returns (left: string)
    ensures s == left + StripLeft(s) && AllSpace(left)
    ensures StripLeft(s) != "" ==> !IsSpace(StripLeft(s)[0])
  {
    left := "";
    if s != "" && IsSpace(s[0]) {
      left := LeftMargin(s[1..]);
      assert s == [s[0]] + s[1..];
      left := [s[0]] + left;
    }
  }

  lemma {:induction false} RightMargin(s: string) returns (right: string)
    ensures s == StripRight(s) + right && AllSpace(right)
    ensures StripRight(s) != "" ==> !IsSpace(StripRight(s)[|StripRight(s)| - 1])
  {
    right := "";
    if s != "" && IsSpace(s[|s| - 1]) {
      var n := |s| - 1;
      right := RightMargin(s[..n]);
      assert s == s[..n] + [s[n]];
      right := right + [s[n]];
    }
  }

  /** Stripping takes off all white space at both ends and nothing else. */
  lemma StripTakesMargins(s: string) returns (left: string, right: string)
    ensures s == left + Strip(s) + right && AllSpace(left) && AllSpace(right)
    ensures Strip(s) != "" ==> !IsSpace(Strip(s)[0]) && !IsSpace(Strip(s)[|Strip(s)| - 1])
  {
    left := LeftMargin(s);
    right := RightMargin(StripLeft(s));
    assert Strip(s) != "" ==> Strip(s)[0] == StripLeft(s)[0];
  }

  function NormalizeItemType(item: Item): string {
    var value := Strip(At(item, "Type").Or(At(item, "ItemType")).Or(Str("")).Show());
    if value == "" then "Unknown" else value
  }

  function SeriesOf(item: Item): string {
    At(item, "SeriesId").Or(At(item, "SeriesName")).Or(At(item, "ParentId")).Or(At(item, "Album")).Or(Str("unknown-series")).Show()
  }

  function SeasonOf(item: Item): string {
    At(item, "ParentIndexNumber").Or(At(item, "SeasonNumber")).Or(Str("all")).Show()
  }

  function AggregateKey(eventType: string, item: Item): string {
    "episode:" + eventType + ":" + SeriesOf(item) + ":S" + SeasonOf(item)
  }

  function AggregateName(item: Item): string {
    var series := At(item, "SeriesName").Or(At(item, "Series")).Or(At(item, "Name")).Or(Str("Episode"));
    var season := At(item, "ParentIndexNumber").Or(At(item, "SeasonNumber"));
    if season.Null? then series.Show() else series.Show() + " - Season " + season.Show()
  }

  function TextOrNone(field: Field): Option<string> {
    var s := field.Or(Str("")).Show();
    if s == "" then None else Some(s)
  }

  /** What the log needs to know of a webhook. An episode event stands under its aggregate key. */
  datatype Entry = Entry(eventType: string, itemId: Option<string>, itemName: Option<string>, itemType: string,
                         body: string, window: int, now: real)

  function EntryOf(e: Webhook): Entry {
    var itemType := NormalizeItemType(e.item);
    if Lower(itemType) == "episode" then
      Entry(e.eventType, Some(AggregateKey(e.eventType, e.item)), Some(AggregateName(e.item)), "Episode",
            e.body, e.window, e.now)
    else
      Entry(e.eventType, TextOrNone(At(e.item, "Id")), TextOrNone(At(e.item, "Name")), itemType, e.body, e.window, e.now)
  }

  predicate IsEpisode(e: Entry) {
    e.itemType == "Episode" && e.itemId.Some?
  }

  predicate IsOf(e: Entry, eventType: string, key: string) {
    e.itemType == "Episode" && e.itemId == Some(key) && e.eventType == eventType
  }

  /** An event is logged as an episode when its type reads "episode" in any mixture of cases, and under no other type. */
  lemma EntryKinds(e: Webhook)
    ensures IsEpisode(EntryOf(e)) <==> Lower(NormalizeItemType(e.item)) == "episode"
    ensures IsEpisode(EntryOf(e)) ==> IsOf(EntryOf(e), e.eventType, AggregateKey(e.eventType, e.item))
  {
    LowerEpisode();
  }

  lemma LowerEpisode()
    ensures Lower("Episode") == "episode"
  {
    assert Lower("Episode")[0] == 'e' && Lower("Episode")[1..] == "pisode";
  }

  /** Series `b` begins with series `a` and a season mark, and season `s` ends with the mark and season `t`. */
  predicate Overlaps(a: string, s: string, b: string, t: string) {
    |b| >= |a| + 2 && b[..|a| + 2] == a + ":S" && s == b[|a| + 2..] + ":S" + t
  }

  lemma OverlapIsEqual(a: string, s: string, b: string, t: string)
    requires Overlaps(a, s, b, t)
    ensures a + ":S" + s == b + ":S" + t
  {
    assert b == b[..|a| + 2] + b[|a| + 2..];
    assert a + ":S" + s == b[..|a| + 2] + (b[|a| + 2..] + ":S" + t);
  }

  lemma ShorterSeriesOverlaps(a: string, s: string, b: string, t: string)
    requires a + ":S" + s == b + ":S" + t && |a| < |b|
    ensures Overlaps(a, s, b, t)
  {
    var u, v := a + ":S" + s, b + ":S" + t;
    assert u[|a|] == ':' && u[|a| + 1] == 'S' && v[|b|] == ':';
    assert b[..|a| + 2] == v[..|a| + 2] == u[..|a| + 2] == a + ":S";
    assert s == u[|a| + 2..] == v[|a| + 2..] == b[|a| + 2..] + ":S" + t;
  }

  lemma MarksMeet(a: string, s: string, b: string, t: string)
    ensures a + ":S" + s == b + ":S" + t <==> (a == b && s == t) || Overlaps(a, s, b, t) || Overlaps(b, t, a, s)
  {
    if Overlaps(a, s, b, t) {
      OverlapIsEqual(a, s, b, t);
    } else if Overlaps(b, t, a, s) {
      OverlapIsEqual(b, t, a, s);
    } else if a + ":S" + s == b + ":S" + t {
      if |a| < |b| {
        ShorterSeriesOverlaps(a, s, b, t);
      } else if |b| < |a| {
        ShorterSeriesOverlaps(b, t, a, s);
      } else {
        var u, v := a + ":S" + s, b + ":S" + t;
        assert a == u[..|a|] == v[..|b|] == b && s == u[|a| + 2..] == v[|b| + 2..] == t;
      }
    }
  }

  /**
   Two items of one event type share a key exactly when they have the same series and season texts, or
   when one's series ends and the other's season begins with the same text around a season mark.
   */
  lemma KeyIdentifiesSeason(eventType: string, a: Item, b: Item)
    ensures AggregateKey(eventType, a) == AggregateKey(eventType, b)
            <==> || (SeriesOf(a) == SeriesOf(b) && SeasonOf(a) == SeasonOf(b))
                 || Overlaps(SeriesOf(a), SeasonOf(a), SeriesOf(b), SeasonOf(b))
                 || Overlaps(SeriesOf(b), SeasonOf(b), SeriesOf(a), SeasonOf(a))
    ensures ':' !in SeasonOf(a) && ':' !in SeasonOf(b) ==>
              (AggregateKey(eventType, a) == AggregateKey(eventType, b)
               <==> SeriesOf(a) == SeriesOf(b) && SeasonOf(a) == SeasonOf(b))
  {
    KeysMeet("episode:" + eventType + ":", SeriesOf(a), SeasonOf(a), SeriesOf(b), SeasonOf(b));
    OverlapNeedsColon(SeriesOf(a), SeasonOf(a), SeriesOf(b), SeasonOf(b));
    OverlapNeedsColon(SeriesOf(b), SeasonOf(b), SeriesOf(a), SeasonOf(a));
  }

  lemma KeysMeet(prefix: string, a: string, s: string, b: string, t: string)
    ensures prefix + a + ":S" + s == prefix + b + ":S" + t
            <==> (a == b && s == t) || Overlaps(a, s, b, t) || Overlaps(b, t, a, s)
  {
    var x, y := a + ":S" + s, b + ":S" + t;
    assert prefix + a + ":S" + s == prefix + x && prefix + b + ":S" + t == prefix + y;
    assert (prefix + x)[|prefix|..] == x && (prefix + y)[|prefix|..] == y;
    MarksMeet(a, s, b, t);
  }

  lemma OverlapNeedsColon(a: string, s: string, b: string, t: string)
    ensures Overlaps(a, s, b, t) ==> ':' in s
  {
    if Overlaps(a, s, b, t) {
      assert s[|b| - |a| - 2] == ':';
    }
  }

  /** Season "x:S1" of series "a" and season 1 of series "a:Sx" are aggregated as one. */
  lemma DifferentSeasonsCollide(eventType: string)
    ensures var a: Item := map["SeriesId" := Str("a"), "ParentIndexNumber" := Str("x:S1")];
            var b: Item := map["SeriesId" := Str("a:Sx"), "ParentIndexNumber" := Num(1)];
            && SeriesOf(a) != SeriesOf(b) && SeasonOf(a) != SeasonOf(b)
            && AggregateKey(eventType, a) == AggregateKey(eventType, b)
  {
    var a: Item := map["SeriesId" := Str("a"), "ParentIndexNumber" := Str("x:S1")];
    var b: Item := map["SeriesId" := Str("a:Sx"), "ParentIndexNumber" := Num(1)];
    assert Decimal(1) == "1";
    assert SeriesOf(a) == "a" && SeasonOf(a) == "x:S1" && SeriesOf(b) == "a:Sx" && SeasonOf(b) == "1";
    assert "a:Sx"[..3] == "a:S" && "a:Sx"[3..] == "x" && "x:S1" == "x" + ":S" + "1";
    KeyIdentifiesSeason(eventType, a, b);
  }

  /** The season of an item: the first of its two fields that counts as true. */
  function SeasonField(item: Item): Option<Field> {
    if At(item, "ParentIndexNumber").Truthy() then Some(At(item, "ParentIndexNumber"))
    else if At(item, "SeasonNumber").Truthy() then Some(At(item, "SeasonNumber"))
    else None
  }

  /** No season is the season "all"; numbers are the same season when they are equal, anything else when it prints the same. */
  predicate SameSeason(f: Option<Field>, g: Option<Field>) {
    match (f, g)
    case (None, None) => true
    case (None, Some(y)) => !y.Num? && y.Show() == "all"
    case (Some(x), None) => !x.Num? && x.Show() == "all"
    case (Some(x), Some(y)) => if x.Num? && y.Num? then x == y else x.Show() == y.Show()
  }

  lemma {:induction false} DecimalDigits(n: nat)
    ensures forall c :: c in Decimal(n) ==> '0' <= c <= '9'
  {
    if n >= 10 {
      DecimalDigits(n / 10);
    }
  }

  lemma NumeralsDiffer(x: Field, y: Field)
    requires x.Num?
    ensures x.Show() != "all"
    ensures y.Num? && x.Show() == y.Show() ==> x == y
  {
    DecimalDigits(if x.n < 0 then -x.n else x.n);
    assert "all"[0] == 'a';
    assert x.Show()[0] == '-' || x.Show()[0] in Decimal(x.n);
    if y.Num? && x.Show() == y.Show() {
      DecimalDigits(if y.n < 0 then -y.n else y.n);
      assert x.n < 0 ==> x.Show()[0] == '-' && x.Show()[1..] == Decimal(-x.n);
      assert y.n < 0 ==> y.Show()[0] == '-' && y.Show()[1..] == Decimal(-y.n);
      assert x.n >= 0 ==> x.Show()[0] in Decimal(x.n);
      assert y.n >= 0 ==> y.Show()[0] in Decimal(y.n);
      DecimalInjective(if x.n < 0 then -x.n else x.n, if y.n < 0 then -y.n else y.n);
    }
  }

  /**
   When two items have the same season text, on their fields. Zero, null, an empty text and a missing
   field all count as no season, so specials share the season of events that name none.
   */
  lemma SeasonsCoincideIff(a: Item, b: Item)
    ensures SeasonOf(a) == SeasonOf(b) <==> SameSeason(SeasonField(a), SeasonField(b))
    ensures SeasonField(a) == None
            <==> forall name :: name in ["ParentIndexNumber", "SeasonNumber"] ==>
                   At(a, name) in [Null, Str(""), Num(0)] || (At(a, name).Other? && !At(a, name).truth)
  {
    if SeasonField(a).Some? && SeasonField(a).value.Num? {
      NumeralsDiffer(SeasonField(a).value, SeasonField(b).GetOr(Null));
    }
    if SeasonField(b).Some? && SeasonField(b).value.Num? {
      NumeralsDiffer(SeasonField(b).value, SeasonField(a).GetOr(Null));
    }
  }

  // ----- Logging one event -----

  function Window(seconds: int): int {
    if seconds > 1 then seconds else 1
  }

  predicate IsKeyRow(r: Row, eventType: string, key: string) {
    r.eventType == eventType && r.itemType == "Episode" && r.itemId == Some(key)
  }

  function RowsWith(eventType: string, key: string): Row -> bool {
    (r: Row) => IsKeyRow(r, eventType, key)
  }

  /** The newest of the rows looked for, if updated at or after `threshold`. */
  function Newest(rows: seq<Row>, mine: Row -> bool, threshold: real): (r: Option<nat>)
    ensures r.Some? ==> r.value < |rows| && mine(rows[r.value]) && rows[r.value].updatedAt >= threshold
    ensures r.Some? ==> forall i :: 0 <= i < |rows| && mine(rows[i]) ==> rows[i].updatedAt <= rows[r.value].updatedAt
    ensures r.None? ==> forall i :: 0 <= i < |rows| && mine(rows[i]) ==> rows[i].updatedAt < threshold
  {
    if rows == [] then None
    else
      var n := |rows| - 1;
      var best := Newest(rows[..n], mine, threshold);
      assert forall i :: 0 <= i < n ==> rows[..n][i] == rows[i];
      if mine(rows[n]) && rows[n].updatedAt >= threshold
         && (best.None? || rows[best.value].updatedAt <= rows[n].updatedAt) then Some(n)
      else best
  }

  function PayloadOf(e: Entry, count: nat): Payload {
    if IsEpisode(e) then Aggregated(e.body, Window(e.window), count, e.itemId.value) else Plain(e.body)
  }

  function NewRow(e: Entry): Row {
    Row(e.eventType, e.itemId, e.itemName, e.itemType, 1, PayloadOf(e, 1), e.now, e.now)
  }

  function Refreshed(r: Row, e: Entry): Row {
    r.(itemName := e.itemName, count := r.count + 1, payload := PayloadOf(e, r.count + 1), updatedAt := e.now)
  }

  function Target(rows: seq<Row>, e: Entry): (r: Option<nat>)
    ensures r.Some? ==> r.value < |rows|
  {
    if IsEpisode(e)
    then Newest(rows, RowsWith(e.eventType, e.itemId.value), e.now - Window(e.window) as real)
    else None
  }

  /** The row that an event leaves behind. */
  function RowLeft(rows: seq<Row>, e: Entry): Row {
    var target := Target(rows, e);
    if target.Some? then Refreshed(rows[target.value], e) else NewRow(e)
  }

  function Log(rows: seq<Row>, e: Entry): seq<Row> {
    var target := Target(rows, e);
    if target.Some? then rows[target.value := RowLeft(rows, e)] else rows + [RowLeft(rows, e)]
  }

  function RunLog(events: seq<Entry>): seq<Row> {
    if events == [] then [] else Log(RunLog(events[..|events| - 1]), events[|events| - 1])
  }

  // ----- Counts -----

  function Total(rows: seq<Row>): nat {
    if rows == [] then 0 else Total(rows[..|rows| - 1]) + rows[|rows| - 1].count
  }

  lemma {:induction false} TotalUpdate(rows: seq<Row>, i: nat, r: Row)
    requires i < |rows|
    ensures Total(rows[i := r]) + rows[i].count == Total(rows) + r.count
  {
    var n := |rows| - 1;
    if i < n {
      TotalUpdate(rows[..n], i, r);
      assert rows[i := r][..n] == rows[..n][i := r];
    } else {
      assert rows[i := r][..n] == rows[..n];
    }
  }

  /** Episode rows are those with an aggregate, which repeats the row's count and key. */
  predicate Consistent(r: Row) {
    && r.count >= 1
    && (r.payload.Aggregated? <==> r.itemType == "Episode" && r.itemId.Some?)
    && (r.payload.Aggregated? ==> r.payload.count == r.count && r.itemId == Some(r.payload.key))
  }

  lemma LogConserves(rows: seq<Row>, e: Entry)
    requires forall r :: r in rows ==> Consistent(r)
    ensures Total(Log(rows, e)) == Total(rows) + 1
    ensures forall r :: r in Log(rows, e) ==> Consistent(r)
  {
    var target := Target(rows, e);
    if target.Some? {
      assert Consistent(rows[target.value]);
      TotalUpdate(rows, target.value, Refreshed(rows[target.value], e));
      assert Consistent(Refreshed(rows[target.value], e));
    } else {
      assert Consistent(NewRow(e));
      assert (rows + [NewRow(e)])[..|rows|] == rows;
    }
  }

  /** No webhook is lost or counted twice, whatever the clock and the windows do. */
  lemma {:induction false} WebhooksAreConserved(events: seq<Entry>)
    ensures Total(RunLog(events)) == |events|
    ensures forall r :: r in RunLog(events) ==> Consistent(r)
  {
    if events != [] {
      var n := |events| - 1;
      WebhooksAreConserved(events[..n]);
      LogConserves(RunLog(events[..n]), events[n]);
    }
  }

  // ----- Sessions -----

  function Last<T>(s: seq<T>): T
    requires s != []
  {
    s[|s| - 1]
  }

  function Flatten(runs: seq<seq<Entry>>): seq<Entry> {
    if runs == [] then [] else Flatten(runs[..|runs| - 1]) + Last(runs)
  }

  predicate GapsWithin(run: seq<Entry>, window: real) {
    forall i, j :: 0 <= i < |run| && 0 <= j < |run| && j == i + 1 ==> run[j].now - run[i].now <= window
  }

  predicate Apart(run: seq<Entry>, next: seq<Entry>, window: real) {
    run != [] && next != [] && next[0].now - Last(run).now > window
  }

  /** Every run holds together, and every run but the first starts more than a window after its predecessor. */
  predicate MaximalRuns(runs: seq<seq<Entry>>, window: real) {
    runs == [] || (
      && Last(runs) != [] && GapsWithin(Last(runs), window)
      && (|runs| > 1 ==> Apart(runs[|runs| - 2], Last(runs), window))
      && MaximalRuns(runs[..|runs| - 1], window))
  }

  /** An event joins the last run or starts one. */
  function Extend(runs: seq<seq<Entry>>, e: Entry, window: real): seq<seq<Entry>> {
    if runs != [] && Last(runs) != [] && e.now - Last(Last(runs)).now <= window
    then runs[..|runs| - 1] + [Last(runs) + [e]]
    else runs + [[e]]
  }

  function Sessions(events: seq<Entry>, window: real): (runs: seq<seq<Entry>>)
    ensures forall i :: 0 <= i < |runs| ==> runs[i] != []
    ensures runs == [] <==> events == []
    ensures events != [] ==> Last(Last(runs)) == Last(events)
  {
    if events == [] then [] else Extend(Sessions(events[..|events| - 1], window), Last(events), window)
  }

  lemma {:induction false} SessionsAreMaximalRuns(events: seq<Entry>, window: real)
    ensures Flatten(Sessions(events, window)) == events && MaximalRuns(Sessions(events, window), window)
  {
    if events != [] {
      var n := |events| - 1;
      SessionsAreMaximalRuns(events[..n], window);
      ExtendKeepsMaximal(Sessions(events[..n], window), events[n], window);
      assert events == events[..n] + [events[n]];
    }
  }

  lemma ExtendKeepsMaximal(runs: seq<seq<Entry>>, e: Entry, window: real)
    requires MaximalRuns(runs, window)
    ensures MaximalRuns(Extend(runs, e, window), window)
    ensures Flatten(Extend(runs, e, window)) == Flatten(runs) + [e]
  {
    if runs != [] && e.now - Last(Last(runs)).now <= window {
      LongerRun(Last(runs), e, window);
      ReplaceLast(runs, Last(runs) + [e], window);
    } else {
      assert (runs + [[e]])[..|runs|] == runs;
    }
  }

  lemma LongerRun(run: seq<Entry>, e: Entry, window: real)
    requires GapsWithin(run, window) && run != [] && e.now - Last(run).now <= window
    ensures GapsWithin(run + [e], window)
  {
    var longer := run + [e];
    forall i, j | 0 <= i < |longer| && 0 <= j < |longer| && j == i + 1 ensures longer[j].now - longer[i].now <= window {
      assert j < |run| ==> run[j].now - run[i].now <= window;
    }
  }

  lemma ReplaceLast(runs: seq<seq<Entry>>, run: seq<Entry>, window: real)
    requires runs != [] && MaximalRuns(runs, window)
    requires run != [] && run[0] == Last(runs)[0] && GapsWithin(run, window)
    ensures MaximalRuns(runs[..|runs| - 1] + [run], window)
    ensures Flatten(runs[..|runs| - 1] + [run]) == Flatten(runs[..|runs| - 1]) + run
  {
    assert (runs[..|runs| - 1] + [run])[..|runs| - 1] == runs[..|runs| - 1];
  }

  /** The runs without their last event. */
  function DropEvent(runs: seq<seq<Entry>>): seq<seq<Entry>>
    requires runs != [] && Last(runs) != []
  {
    var m, k := |runs| - 1, |Last(runs)| - 1;
    if k == 0 then runs[..m] else runs[..m] + [Last(runs)[..k]]
  }

  lemma DropEventIsMaximal(runs: seq<seq<Entry>>, window: real)
    requires runs != [] && MaximalRuns(runs, window)
    ensures MaximalRuns(DropEvent(runs), window)
    ensures Flatten(runs) == Flatten(DropEvent(runs)) + [Last(Last(runs))]
  {
    var m, run := |runs| - 1, Last(runs);
    var k := |run| - 1;
    assert run == run[..k] + [run[k]];
    if k > 0 {
      assert GapsWithin(run[..k], window) by {
        assert forall i :: 0 <= i < k ==> run[..k][i] == run[i];
      }
      ReplaceLast(runs, run[..k], window);
    }
  }

  lemma ExtendUndoesDrop(runs: seq<seq<Entry>>, window: real)
    requires runs != [] && MaximalRuns(runs, window)
    ensures Extend(DropEvent(runs), Last(Last(runs)), window) == runs
  {
    var m, run := |runs| - 1, Last(runs);
    var k := |run| - 1;
    assert runs == runs[..m] + [run];
    if k == 0 {
      assert run == [run[0]];
      assert m > 0 ==> Last(runs[..m]) == runs[m - 1] && Apart(runs[m - 1], run, window);
    } else {
      assert run == run[..k] + [run[k]] && Last(run[..k]) == run[k - 1];
      assert run[k].now - run[k - 1].now <= window;
      assert (runs[..m] + [run[..k]])[..m] == runs[..m];
    }
  }

  /** There is only one way to cut a sequence of events into maximal runs. */
  lemma {:induction false} MaximalRunsAreUnique(runs: seq<seq<Entry>>, window: real)
    requires MaximalRuns(runs, window)
    ensures runs == Sessions(Flatten(runs), window)
    decreases |Flatten(runs)|
  {
    if runs != [] {
      var shorter, e := DropEvent(runs), Last(Last(runs));
      DropEventIsMaximal(runs, window);
      ExtendUndoesDrop(runs, window);
      MaximalRunsAreUnique(shorter, window);
      assert (Flatten(shorter) + [e])[..|Flatten(shorter)|] == Flatten(shorter);
    }
  }

  predicate Monotone(events: seq<Entry>) {
    forall i, j :: 0 <= i < j < |events| ==> events[i].now <= events[j].now
  }

  predicate RunsEndApart(runs: seq<seq<Entry>>, window: real) {
    forall i, j :: 0 <= i < j < |runs| && runs[i] != [] && runs[j] != [] ==> Last(runs[i]).now + window < Last(runs[j]).now
  }

  /** Later sessions end later, by more than the window. */
  lemma {:induction false} SessionsEndApart(events: seq<Entry>, window: real)
    requires Monotone(events) && window > 0.0
    ensures RunsEndApart(Sessions(events, window), window)
  {
    if events != [] {
      var n := |events| - 1;
      SessionsEndApart(events[..n], window);
      var before, runs := Sessions(events[..n], window), Sessions(events, window);
      forall i, j | 0 <= i < j < |runs| ensures Last(runs[i]).now + window < Last(runs[j]).now {
        assert runs[i] == before[i];
        if j < |runs| - 1 {
          assert runs[j] == before[j];
        } else {
          var m := |before| - 1;
          assert Last(runs[j]) == events[n] && Last(before[m]) == events[n - 1];
          assert events[n - 1].now <= events[n].now;
          assert i < m ==> Last(before[i]).now + window < Last(before[m]).now;
        }
      }
    }
  }

  // ----- The rows of a key are its sessions -----

  function KeyRows(rows: seq<Row>, eventType: string, key: string): seq<Row> {
    Filter(RowsWith(eventType, key), rows)
  }

  function OfKey(eventType: string, key: string): Entry -> bool {
    (e: Entry) => IsOf(e, eventType, key)
  }

  function EventsOf(events: seq<Entry>, eventType: string, key: string): seq<Entry> {
    Filter(OfKey(eventType, key), events)
  }

  /** The row that stands for a session: its length, its span, and the name and body of its last event. */
  function RowOf(run: seq<Entry>, eventType: string, key: string, window: int): Row
    requires run != []
  {
    Row(eventType, Some(key), Last(run).itemName, "Episode", |run|,
        Aggregated(Last(run).body, window, |run|, key), run[0].now, Last(run).now)
  }

  function RowsOf(runs: seq<seq<Entry>>, eventType: string, key: string, window: int): (r: seq<Row>)
    requires forall i :: 0 <= i < |runs| ==> runs[i] != []
    ensures |r| == |runs|
  {
    seq(|runs|, i requires 0 <= i < |runs| => RowOf(runs[i], eventType, key, window))
  }

  predicate EndsApart(rows: seq<Row>) {
    forall i, j :: 0 <= i < j < |rows| ==> rows[i].updatedAt < rows[j].updatedAt
  }

  lemma {:induction false} FilterMonotone(keep: Entry -> bool, events: seq<Entry>)
    requires Monotone(events)
    ensures Monotone(Filter(keep, events))
  {
    if events != [] {
      var rest := Filter(keep, events[1..]);
      FilterMonotone(keep, events[1..]);
      forall i | 0 <= i < |rest| ensures events[0].now <= rest[i].now {
        assert rest[i] in events[1..];
      }
    }
  }

  lemma RowUpdated(rows: seq<Row>, i: nat, r: Row, mine: Row -> bool)
    requires i < |rows| && mine(rows[i]) == mine(r)
    ensures Filter(mine, rows[i := r])
            == Filter(mine, rows[..i]) + (if mine(r) then [r] else []) + Filter(mine, rows[i + 1..])
    ensures !mine(r) ==> Filter(mine, rows[i := r]) == Filter(mine, rows)
  {
    FilterAt(mine, rows, i);
    FilterAt(mine, rows[i := r], i);
    assert rows[i := r][..i] == rows[..i] && rows[i := r][i + 1..] == rows[i + 1..];
  }

  lemma LastOfApart(before: seq<Row>, r: Row, after: seq<Row>)
    requires EndsApart(before + [r] + after)
    ensures after == [] || exists x :: x in after && x.updatedAt > r.updatedAt
  {
    if after != [] {
      var own := before + [r] + after;
      assert own[|before|] == r && own[|own| - 1] == Last(after);
    }
  }

  /** When the rows looked for end one after another, the query finds the last of them. */
  lemma NewestIsLast(rows: seq<Row>, mine: Row -> bool, threshold: real)
    requires EndsApart(Filter(mine, rows))
    ensures var target, own := Newest(rows, mine, threshold), Filter(mine, rows);
            && (target.Some? <==> own != [] && Last(own).updatedAt >= threshold)
            && (target.Some? ==> own == Filter(mine, rows[..target.value]) + [rows[target.value]]
                                 && Filter(mine, rows[target.value + 1..]) == [])
  {
    var target, own := Newest(rows, mine, threshold), Filter(mine, rows);
    if target.Some? {
      var i := target.value;
      FilterAt(mine, rows, i);
      LastOfApart(Filter(mine, rows[..i]), rows[i], Filter(mine, rows[i + 1..]));
    } else if own != [] {
      assert Last(own) in own;
    }
  }

  lemma OtherEventKeepsRows(rows: seq<Row>, e: Entry, eventType: string, key: string)
    requires !IsOf(e, eventType, key)
    ensures KeyRows(Log(rows, e), eventType, key) == KeyRows(rows, eventType, key)
  {
    var target := Target(rows, e);
    if target.Some? {
      RowUpdated(rows, target.value, Refreshed(rows[target.value], e), RowsWith(eventType, key));
    } else {
      FilterConcat(RowsWith(eventType, key), rows, [NewRow(e)]);
    }
  }

  lemma ExtendedRows(runs: seq<seq<Entry>>, e: Entry, eventType: string, key: string, window: int)
    requires forall i :: 0 <= i < |runs| ==> runs[i] != []
    ensures var next, own := Extend(runs, e, window as real), RowsOf(runs, eventType, key, window);
            var joins := own != [] && Last(own).updatedAt >= e.now - window as real;
            && (forall i :: 0 <= i < |next| ==> next[i] != [])
            && (joins ==> RowsOf(next, eventType, key, window)
                          == own[..|own| - 1] + [RowOf(Last(runs) + [e], eventType, key, window)])
            && (!joins ==> RowsOf(next, eventType, key, window) == own + [RowOf([e], eventType, key, window)])
  {
  }

  lemma RefreshedRow(run: seq<Entry>, e: Entry, key: string)
    requires run != [] && IsOf(e, e.eventType, key)
    ensures Refreshed(RowOf(run, e.eventType, key, Window(e.window)), e) == RowOf(run + [e], e.eventType, key, Window(e.window))
    ensures NewRow(e) == RowOf([e], e.eventType, key, Window(e.window))
  {
  }

  /** `r` takes the place of the newest of the rows looked for, or comes last. */
  lemma UpdateOrAppend(rows: seq<Row>, mine: Row -> bool, threshold: real, target: Option<nat>, r: Row)
    requires EndsApart(Filter(mine, rows)) && mine(r) && target == Newest(rows, mine, threshold)
    ensures var own := Filter(mine, rows);
            && (target.Some? <==> own != [] && Last(own).updatedAt >= threshold)
            && (target.Some? ==> rows[target.value] == Last(own)
                                 && Filter(mine, rows[target.value := r]) == own[..|own| - 1] + [r])
            && (target.None? ==> Filter(mine, rows + [r]) == own + [r])
  {
    NewestIsLast(rows, mine, threshold);
    if target.Some? {
      RowUpdated(rows, target.value, r, mine);
    } else {
      FilterConcat(mine, rows, [r]);
      FilterOne(mine, r);
    }
  }

  lemma RowLeftHasKey(rows: seq<Row>, e: Entry, key: string)
    requires IsOf(e, e.eventType, key)
    ensures RowsWith(e.eventType, key)(RowLeft(rows, e))
    ensures Target(rows, e) == Newest(rows, RowsWith(e.eventType, key), e.now - Window(e.window) as real)
  {
  }

  lemma OwnEventExtendsRows(rows: seq<Row>, e: Entry, mine: Row -> bool)
    requires EndsApart(Filter(mine, rows)) && mine(RowLeft(rows, e))
    requires Target(rows, e) == Newest(rows, mine, e.now - Window(e.window) as real)
    ensures var own, longer := Filter(mine, rows), Filter(mine, Log(rows, e));
            var joins := own != [] && Last(own).updatedAt >= e.now - Window(e.window) as real;
            && (joins ==> longer == own[..|own| - 1] + [Refreshed(Last(own), e)])
            && (!joins ==> longer == own + [NewRow(e)])
  {
    var target, own, r := Target(rows, e), Filter(mine, rows), RowLeft(rows, e);
    UpdateOrAppend(rows, mine, e.now - Window(e.window) as real, target, r);
    if target.Some? {
      var changed := rows[target.value := r];
      assert Filter(mine, changed) == own[..|own| - 1] + [r];
      assert Log(rows, e) == changed;
      assert Filter(mine, Log(rows, e)) == Filter(mine, changed);
    }
  }

  /** The rows of the key are, field by field, the summaries of the sessions of `own`. */
  predicate Summarise(rows: seq<Row>, own: seq<Entry>, eventType: string, key: string, window: int) {
    KeyRows(rows, eventType, key) == RowsOf(Sessions(own, window as real), eventType, key, window)
  }

  /**
   Aggregation is sessionization: with a fixed window and a clock that never goes back, the rows of a
   key summarise the maximal runs of its events.
   */
  lemma {:induction false} RowsAreSessions(events: seq<Entry>, seconds: int, eventType: string, key: string)
    requires Monotone(events)
    requires forall i :: 0 <= i < |events| ==> events[i].window == seconds
    ensures Summarise(RunLog(events), EventsOf(events, eventType, key), eventType, key, Window(seconds))
  {
    if events != [] {
      var n := |events| - 1;
      RowsAreSessions(events[..n], seconds, eventType, key);
      FilterMonotone(OfKey(eventType, key), events[..n]);
      var e, before, rows := events[n], EventsOf(events[..n], eventType, key), RunLog(events[..n]);
      FilterAt(OfKey(eventType, key), events, n);
      LogSummarises(rows, before, e, eventType, key);
      assert EventsOf(events, eventType, key) == before + (if OfKey(eventType, key)(e) then [e] else []);
      assert RunLog(events) == Log(rows, e);
    }
  }

  /** Two rows of a key are never equally new, so the order of the query leaves no choice. */
  lemma RowsOfKeyNeverTie(events: seq<Entry>, seconds: int, eventType: string, key: string)
    requires Monotone(events)
    requires forall i :: 0 <= i < |events| ==> events[i].window == seconds
    ensures EndsApart(KeyRows(RunLog(events), eventType, key))
  {
    RowsAreSessions(events, seconds, eventType, key);
    FilterMonotone(OfKey(eventType, key), events);
    SessionsEndApart(EventsOf(events, eventType, key), Window(seconds) as real);
  }

  lemma LogSummarises(rows: seq<Row>, before: seq<Entry>, e: Entry, eventType: string, key: string)
    requires Monotone(before) && Summarise(rows, before, eventType, key, Window(e.window))
    ensures Summarise(Log(rows, e), before + (if OfKey(eventType, key)(e) then [e] else []), eventType, key, Window(e.window))
  {
    if IsOf(e, eventType, key) {
      SessionsEndApart(before, Window(e.window) as real);
      OwnEventExtendsSessions(rows, before, e, key);
    } else {
      OtherEventKeepsRows(rows, e, eventType, key);
      assert before + [] == before;
    }
  }

  lemma OwnEventExtendsSessions(rows: seq<Row>, before: seq<Entry>, e: Entry, key: string)
    requires IsOf(e, e.eventType, key) && Summarise(rows, before, e.eventType, key, Window(e.window))
    requires EndsApart(KeyRows(rows, e.eventType, key))
    ensures Summarise(Log(rows, e), before + [e], e.eventType, key, Window(e.window))
  {
    var w := Window(e.window);
    var runs := Sessions(before, w as real);
    RowLeftHasKey(rows, e, key);
    OwnEventExtendsRows(rows, e, RowsWith(e.eventType, key));
    ExtendedRows(runs, e, e.eventType, key, w);
    assert (before + [e])[..|before|] == before;
    RefreshedRow(if runs != [] then Last(runs) else [e], e, key);
  }

  // ----- The object -----

  class EventLog {
    var rows: seq<Row>

    constructor ()
      ensures rows == []
    {
      rows := [];
    }

    method LogWebhookEvent(e: Webhook) returns (index: nat, aggregated: bool)
      modifies this
      ensures rows == Log(old(rows), EntryOf(e))
      ensures aggregated == Target(old(rows), EntryOf(e)).Some?
      ensures index == if aggregated then Target(old(rows), EntryOf(e)).value else |old(rows)|
    {
      LowerEpisode();
      var itemType := NormalizeItemType(e.item);
      if Lower(itemType) == "episode" {
        var aggregateId := AggregateKey(e.eventType, e.item);
        var window := if e.window > 1 then e.window else 1;
        var existing := Newest(rows, RowsWith(e.eventType, aggregateId), e.now - window as real);
        if existing.Some? {
          var row := rows[existing.value];
          var merged := Aggregated(e.body, window, row.count + 1, aggregateId);
          row := row.(count := row.count + 1);
          row := row.(payload := merged, itemName := Some(AggregateName(e.item)), updatedAt := e.now);
          rows := rows[existing.value := row];
          return existing.value, true;
        }
        rows := rows + [Row(e.eventType, Some(aggregateId), Some(AggregateName(e.item)), "Episode", 1,
                            Aggregated(e.body, window, 1, aggregateId), e.now, e.now)];
        return |rows| - 1, false;
      }
      rows := rows + [Row(e.eventType, TextOrNone(At(e.item, "Id")), TextOrNone(At(e.item, "Name")), itemType, 1,
                          Plain(e.body), e.now, e.now)];
      return |rows| - 1, false;
    }
  }
}
