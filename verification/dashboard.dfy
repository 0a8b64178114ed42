/** The dashboard's analytics report over the fetched usage records, its
    hours formatter and the colour of the productivity ring. */
module Dashboard {
  import opened Wrappers
  import opened Text
  import opened Seqs
  import opened Records

  /* ---------- keyword matching ---------- */

  /** `keywords.some(k => app.toLowerCase().includes(k.toLowerCase()))`. */
  predicate MatchesAny(app: string, keywords: seq<string>) {
    exists i :: 0 <= i < |keywords| && ContainsIgnoringCase(app, keywords[i])
  }

  /** Applications whose hours count toward the productivity score. */
  const ProductiveApps: seq<string> :=
    ["Visual Studio Code", "WebStorm", "Photoshop", "Illustrator", "Word", "Excel"]

  predicate IsProductive(r: UsageRecord) {
    MatchesAny(r.app, ProductiveApps)
  }

  /* ---------- categories ---------- */

  /** The category table, in the order its keys are listed. */
  datatype Category = Development | Design | Office | Browser | Entertainment | Other

  const CategoryOrder: seq<Category> :=
    [Development, Design, Office, Browser, Entertainment, Other]

  function Label(c: Category): string {
    match c
    case Development => "Development"
    case Design => "Design"
    case Office => "Office"
    case Browser => "Browser"
    case Entertainment => "Entertainment"
    case Other => "Other"
  }

  function Keywords(c: Category): seq<string> {
    match c
    case Development => ["Visual Studio Code", "WebStorm", "IntelliJ", "Eclipse", "Atom", "Sublime"]
    case Design => ["Photoshop", "Illustrator", "After Effects", "Figma", "Sketch", "InDesign"]
    case Office => ["Word", "Excel", "PowerPoint", "Outlook", "Teams", "Slack"]
    case Browser => ["Chrome", "Firefox", "Safari", "Edge", "Opera"]
    case Entertainment => ["Spotify", "VLC", "Netflix", "YouTube", "Discord", "Steam"]
    case Other => []
  }

  /** `Object.values(categories).flat()`: every keyword of every category. */
  function AllKeywords(): seq<string> {
    Keywords(Development) + Keywords(Design) + Keywords(Office)
      + Keywords(Browser) + Keywords(Entertainment) + Keywords(Other)
  }

  /** Matches some keyword of some named category. */
  predicate IsCategorised(r: UsageRecord) {
    MatchesAny(r.app, AllKeywords())
  }

  /** The per-category filter: a named category tests its own keywords;
      "Other" takes records that match no keyword at all. */
  predicate InCategory(r: UsageRecord, c: Category) {
    if c == Other then !IsCategorised(r) else MatchesAny(r.app, Keywords(c))
  }

  function CategoryTest(c: Category): UsageRecord -> bool {
    r => InCategory(r, c)
  }

  function CategoryHours(data: seq<UsageRecord>, c: Category): real {
    SumHours(Filter(data, CategoryTest(c)))
  }

  /** `{ category, hours, percentage }`. */
  datatype CategoryShare = CategoryShare(category: string, hours: real, percentage: real)

  /** `total > 0 ? part / total * 100 : 0`. */
  function Percentage(part: real, total: real): (r: real)
    ensures total > 0.0 ==> r * total == part * 100.0
    ensures total <= 0.0 ==> r == 0.0
  {
    if total > 0.0 then part / total * 100.0 else 0.0
  }

  function Share(data: seq<UsageRecord>, total: real, c: Category): CategoryShare {
    var h := CategoryHours(data, c);
    CategoryShare(Label(c), h, Percentage(h, total))
  }

  /** One share per category, in table order, before empty ones are dropped. */
  function AllShares(data: seq<UsageRecord>, total: real): (r: seq<CategoryShare>)
    ensures |r| == |CategoryOrder|
    ensures forall i :: 0 <= i < |r| ==> r[i] == Share(data, total, CategoryOrder[i])
  {
    seq(|CategoryOrder|, i requires 0 <= i < |CategoryOrder| => Share(data, total, CategoryOrder[i]))
  }

  function HasHours(s: CategoryShare): bool {
    s.hours > 0.0
  }

  /** `.filter(cat => cat.hours > 0)` over the shares. */
  function Breakdown(data: seq<UsageRecord>, total: real): seq<CategoryShare> {
    Filter(AllShares(data, total), HasHours)
  }

  /* ---------- most used app ---------- */

  /** Index of the record `data.reduce((prev, cur) => prev.h > cur.h ? prev : cur)`
      returns: a record with maximal hours, and the LAST one among equals,
      because the running winner survives only when strictly greater. */
  function MostUsedIndex(data: seq<UsageRecord>): (k: nat)
    requires |data| > 0
    ensures k < |data|
    ensures forall j :: 0 <= j < |data| ==> Hours(data[j]) <= Hours(data[k])
    ensures forall j :: k < j < |data| ==> Hours(data[j]) < Hours(data[k])
  {
    if |data| == 1 then 0
    else
      var p := MostUsedIndex(data[..|data| - 1]);
      assert forall j :: 0 <= j < |data| - 1 ==> data[..|data| - 1][j] == data[j];
      if Hours(data[p]) > Hours(data[|data| - 1]) then p else |data| - 1
  }

  /** `mostUsedApp.app || 'N/A'`. */
  function AppLabel(r: UsageRecord): string {
    if r.app == "" then "N/A" else r.app
  }

  /* ---------- productivity ---------- */

  function ProductiveHours(data: seq<UsageRecord>): real {
    SumHours(Filter(data, IsProductive))
  }

  /* ---------- top apps ---------- */

  predicate SortedByHours(s: seq<UsageRecord>) {
    forall i, j :: 0 <= i < j < |s| ==> Hours(s[i]) >= Hours(s[j])
  }

  /** Places `x` before the first record with no more hours than it, so a
      record inserted ahead of its equals keeps its original position
      relative to them. */
  function InsertByHours(x: UsageRecord, s: seq<UsageRecord>): (r: seq<UsageRecord>)
    requires SortedByHours(s)
    ensures SortedByHours(r)
    ensures multiset(r) == multiset(s) + multiset{x}
  {
    if |s| == 0 then [x]
    else if Hours(x) >= Hours(s[0]) then [x] + s
    else
      var rest := InsertByHours(x, s[1..]);
      InsertBehindHead(x, s, rest);
      [s[0]] + rest
  }

  /** Keeping the head in front of the insertion into the tail stays sorted. */
  lemma InsertBehindHead(x: UsageRecord, s: seq<UsageRecord>, rest: seq<UsageRecord>)
    requires SortedByHours(s) && |s| > 0 && Hours(x) < Hours(s[0])
    requires SortedByHours(rest) && multiset(rest) == multiset(s[1..]) + multiset{x}
    ensures SortedByHours([s[0]] + rest)
    ensures multiset([s[0]] + rest) == multiset(s) + multiset{x}
  {
    forall j | 0 <= j < |rest|
      ensures Hours(rest[j]) <= Hours(s[0])
    {
      assert rest[j] in multiset(rest);
      if rest[j] != x {
        assert rest[j] in multiset(s[1..]);
        var k :| 0 <= k < |s[1..]| && s[1..][k] == rest[j];
        assert s[k + 1] == rest[j];
      }
    }
    assert s == [s[0]] + s[1..];
  }

  /** `[...data].sort((a, b) => b.h - a.h)`: a stable sort, most hours first. */
  function SortByHours(s: seq<UsageRecord>): (r: seq<UsageRecord>)
    ensures SortedByHours(r)
    ensures multiset(r) == multiset(s)
    ensures |r| == |s|
  {
    if |s| == 0 then []
    else
      assert s == [s[0]] + s[1..];
      InsertByHours(s[0], SortByHours(s[1..]))
  }

  /** `.slice(0, 10)` of the sorted copy. */
  function TopApps(data: seq<UsageRecord>): (r: seq<UsageRecord>)
    ensures |r| == if |data| < 10 then |data| else 10
    ensures SortedByHours(r)
    ensures multiset(r) <= multiset(data)
    ensures forall i, x :: 0 <= i < |r| && x in multiset(data) - multiset(r) ==> Hours(x) <= Hours(r[i])
  {
    TopOfSorted(SortByHours(data), 10);
    Take(SortByHours(data), 10)
  }

  /** Facts about the first `n` records of a sorted permutation. */
  lemma TopOfSorted(sorted: seq<UsageRecord>, n: nat)
    requires SortedByHours(sorted)
    ensures SortedByHours(Take(sorted, n))
    ensures multiset(sorted) - multiset(Take(sorted, n)) == multiset(sorted[|Take(sorted, n)|..])
    ensures forall i, x ::
              0 <= i < |Take(sorted, n)| && x in multiset(sorted) - multiset(Take(sorted, n))
              ==> Hours(x) <= Hours(Take(sorted, n)[i])
  {
    var r := Take(sorted, n);
    var rest := sorted[|r|..];
    assert sorted == r + rest;
    assert multiset(sorted) == multiset(r) + multiset(rest);
    PrefixDominates(sorted, |r|);
  }

  /** In a list sorted by hours, nothing after position `k` has more hours
      than anything before it. */
  lemma PrefixDominates(s: seq<UsageRecord>, k: nat)
    requires SortedByHours(s) && k <= |s|
    ensures forall i, x :: 0 <= i < k && x in multiset(s[k..]) ==> Hours(x) <= Hours(s[i])
  {
    forall i, x | 0 <= i < k && x in multiset(s[k..])
      ensures Hours(x) <= Hours(s[i])
    {
      assert x in s[k..];
      var j :| 0 <= j < |s[k..]| && s[k..][j] == x;
      assert s[k + j] == x;
    }
  }

  /* ---------- the report ---------- */

  datatype Analytics = Analytics(
    totalHours: real,
    totalSessions: nat,
    mostUsedApp: string,
    productivityScore: real,
    dailyAverage: real,
    topApps: seq<UsageRecord>,
    categoryBreakdown: seq<CategoryShare>)

  /** The report for missing or empty data. */
  const EmptyAnalytics := Analytics(0.0, 0, "N/A", 0.0, 0.0, [], [])

  /** The `analytics` memo of the dashboard. */
  function Analyze(data: seq<UsageRecord>): (a: Analytics)
    ensures |data| == 0 ==> a == EmptyAnalytics
    ensures a.totalHours == SumHours(data) && a.totalSessions == SumSessions(data)
    ensures a.dailyAverage * 7.0 == a.totalHours
    ensures |data| > 0 ==> a.mostUsedApp == AppLabel(data[MostUsedIndex(data)])
    ensures a.productivityScore == Percentage(ProductiveHours(data), a.totalHours)
    ensures a.topApps == TopApps(data)
    ensures a.categoryBreakdown == Breakdown(data, a.totalHours)
  {
    if |data| == 0 then
      assert Breakdown(data, 0.0) == [] by {
        forall i | 0 <= i < |CategoryOrder|
          ensures !HasHours(AllShares(data, 0.0)[i])
        {
        }
        FilterNone(AllShares(data, 0.0), HasHours);
      }
      EmptyAnalytics
    else
      var totalHours := SumHours(data);
      Analytics(
        totalHours,
        SumSessions(data),
        AppLabel(data[MostUsedIndex(data)]),
        Percentage(ProductiveHours(data), totalHours),
        totalHours / 7.0,
        TopApps(data),
        Breakdown(data, totalHours))
  }

  /* ---------- presentation helpers ---------- */

  /** `formatHours`: whole hours and whole minutes, "0h 0m" for zero. */
  function FormatHours(hours: real): string {
    if hours == 0.0 then "0h 0m"
    else
      var h := hours.Floor;
      var m := ((hours - h as real) * 60.0).Floor;
      IntToDecimal(h) + "h " + IntToDecimal(m) + "m"
  }

  datatype HoursMinutes = HoursMinutes(hours: int, minutes: nat)

  predicate IsSignedNumeral(s: string) {
    |s| > 0 && (AllDigits(s) || (s[0] == '-' && AllDigits(s[1..])))
  }

  /** Reads text of the form "<hours>h <minutes>m" back into numbers. */
  function ReadHoursMinutes(s: string): Option<HoursMinutes> {
    var parts := Split(s, ' ');
    if |parts| == 2
      && |parts[0]| >= 2 && parts[0][|parts[0]| - 1] == 'h' && IsSignedNumeral(parts[0][..|parts[0]| - 1])
      && |parts[1]| >= 2 && parts[1][|parts[1]| - 1] == 'm' && AllDigits(parts[1][..|parts[1]| - 1])
    then Some(HoursMinutes(SignedValue(parts[0][..|parts[0]| - 1]), DecimalValue(parts[1][..|parts[1]| - 1])))
    else None
  }

  const Green := "#28a745"
  const Amber := "#ffc107"
  const Red := "#dc3545"

  /** `getProductivityColor`: green from 70, amber from 40, red below. */
  function ProductivityColor(score: real): (color: string)
    ensures color == Green <==> score >= 70.0
    ensures color == Amber <==> 40.0 <= score < 70.0
    ensures color == Red <==> score < 40.0
  {
    if score >= 70.0 then Green else if score >= 40.0 then Amber else Red
  }

  /** Red < amber < green. */
  function ColorRank(color: string): nat {
    if color == Green then 2 else if color == Amber then 1 else 0
  }
}

/** Properties of the analytics report, stated over all inputs. */
module DashboardProperties {
  import opened Wrappers
  import opened Text
  import opened Seqs
  import opened Records
  import opened Dashboard

  /** With non-negative hours the productivity score lies in [0, 100]. */
  lemma ScoreBounds(data: seq<UsageRecord>)
    requires NonNegativeHours(data)
    ensures 0.0 <= Analyze(data).productivityScore <= 100.0
  {
    SumHoursFilterBounds(data, IsProductive);
    PercentageBounds(ProductiveHours(data), SumHours(data));
  }

  /** A part between zero and the whole is between 0 and 100 percent of it. */
  lemma PercentageBounds(part: real, total: real)
    requires 0.0 <= part <= total
    ensures 0.0 <= Percentage(part, total) <= 100.0
  {
    if total > 0.0 {
      assert part / total <= 1.0;
    }
  }

  /** Position of a category among the table keys. */
  function Position(c: Category): (i: nat)
    ensures i < |CategoryOrder| && CategoryOrder[i] == c
  {
    match c
    case Development => 0
    case Design => 1
    case Office => 2
    case Browser => 3
    case Entertainment => 4
    case Other => 5
  }

  /** The breakdown keeps the table order and every entry it lists has
      positive hours and its share of the total as percentage. */
  lemma BreakdownEntries(data: seq<UsageRecord>, total: real)
    ensures var r := Breakdown(data, total);
      && IsSubsequence(r, AllShares(data, total))
      && forall k :: 0 <= k < |r| ==> r[k].hours > 0.0 && r[k].percentage == Percentage(r[k].hours, total)
  {
    var all := AllShares(data, total);
    var r := Breakdown(data, total);
    forall k | 0 <= k < |r|
      ensures r[k].hours > 0.0 && r[k].percentage == Percentage(r[k].hours, total)
    {
      FilterMembership(all, HasHours, r[k]);
    }
  }

  /** A category appears in the breakdown exactly when its hours are positive. */
  lemma BreakdownListsPositive(data: seq<UsageRecord>, total: real, c: Category)
    ensures Share(data, total, c) in Breakdown(data, total) <==> CategoryHours(data, c) > 0.0
  {
    var all := AllShares(data, total);
    assert all[Position(c)] == Share(data, total, c);
    FilterMembership(all, HasHours, Share(data, total, c));
  }

  /** Matching a concatenated keyword list is matching one of its parts. */
  lemma MatchesAnyAppend(app: string, a: seq<string>, b: seq<string>)
    ensures MatchesAny(app, a + b) <==> MatchesAny(app, a) || MatchesAny(app, b)
  {
    if MatchesAny(app, a + b) {
      var i :| 0 <= i < |a + b| && ContainsIgnoringCase(app, (a + b)[i]);
      if i < |a| {
        assert (a + b)[i] == a[i];
      } else {
        assert (a + b)[i] == b[i - |a|];
      }
    }
    if MatchesAny(app, a) {
      var i :| 0 <= i < |a| && ContainsIgnoringCase(app, a[i]);
      assert (a + b)[i] == a[i];
    }
    if MatchesAny(app, b) {
      var i :| 0 <= i < |b| && ContainsIgnoringCase(app, b[i]);
      assert (a + b)[i + |a|] == b[i];
    }
  }

  /** A record matches the flattened keyword list exactly when it matches
      some named category's own list. */
  lemma CategorisedIff(r: UsageRecord)
    ensures IsCategorised(r) <==> exists c: Category :: c != Other && InCategory(r, c)
  {
    var d, g, o, b, e := Keywords(Development), Keywords(Design), Keywords(Office),
      Keywords(Browser), Keywords(Entertainment);
    MatchesAnyAppend(r.app, d + g + o + b + e, Keywords(Other));
    MatchesAnyAppend(r.app, d + g + o + b, e);
    MatchesAnyAppend(r.app, d + g + o, b);
    MatchesAnyAppend(r.app, d + g, o);
    MatchesAnyAppend(r.app, d, g);
    assert IsCategorised(r) <==>
      MatchesAny(r.app, d) || MatchesAny(r.app, g) || MatchesAny(r.app, o)
      || MatchesAny(r.app, b) || MatchesAny(r.app, e);
    if IsCategorised(r) {
      if MatchesAny(r.app, d) {
        assert InCategory(r, Development);
      } else if MatchesAny(r.app, g) {
        assert InCategory(r, Design);
      } else if MatchesAny(r.app, o) {
        assert InCategory(r, Office);
      } else if MatchesAny(r.app, b) {
        assert InCategory(r, Browser);
      } else {
        assert InCategory(r, Entertainment);
      }
    }
  }

  /** "Other" holds exactly the hours of records no named category claims:
      its hours plus the hours of categorised records make up the total. */
  lemma OtherIsRemainder(data: seq<UsageRecord>)
    ensures CategoryHours(data, Other) + SumHours(Filter(data, IsCategorised)) == SumHours(data)
  {
    SumHoursFilterSplit(data, IsCategorised, CategoryTest(Other));
  }

  /** Whole hours are the floor; whole minutes of the remainder are below 60
      and bracket the value to the minute. */
  lemma MinutesBounds(x: real)
    ensures var h := x.Floor;
      var m := ((x - h as real) * 60.0).Floor;
      && 0 <= m < 60
      && h as real + m as real / 60.0 <= x < h as real + (m + 1) as real / 60.0
  {
    var h := x.Floor;
    var f := (x - h as real) * 60.0;
    assert 0.0 <= f < 60.0;
    var m := f.Floor;
    assert m as real <= f < m as real + 1.0;
  }

  /** Text of the form "<h>h <m>m" reads back as `h` and `m`. */
  lemma HoursTextReadBack(h: int, m: nat)
    ensures ReadHoursMinutes(IntToDecimal(h) + "h " + IntToDecimal(m) + "m") == Some(HoursMinutes(h, m))
  {
    var a := IntToDecimal(h) + "h";
    var b := IntToDecimal(m) + "m";
    assert IntToDecimal(h) + "h " + IntToDecimal(m) + "m" == a + [' '] + b;
    assert ' ' !in a;
    assert ' ' !in b;
    SplitFirst(a, ' ', b);
    SplitNoSep(b, ' ');
    assert a[..|a| - 1] == IntToDecimal(h);
    assert b[..|b| - 1] == IntToDecimal(m);
    SignedRoundTrip(h);
    DecimalRoundTrip(m);
  }

  /** The dashboard's hours text reads back as the whole hours below the
      value and the whole minutes of the remainder, for every input. */
  lemma FormatHoursReadBack(x: real)
    ensures ReadHoursMinutes(FormatHours(x)).Some?
    ensures var hm := ReadHoursMinutes(FormatHours(x)).value;
      && hm.hours == x.Floor
      && hm.minutes < 60
      && hm.hours as real + hm.minutes as real / 60.0 <= x
      && x < hm.hours as real + (hm.minutes + 1) as real / 60.0
  {
    MinutesBounds(x);
    var h := x.Floor;
    var m := ((x - h as real) * 60.0).Floor;
    HoursTextReadBack(h, m);
    if x == 0.0 {
      assert FormatHours(x) == IntToDecimal(0) + "h " + IntToDecimal(0) + "m";
    } else {
      assert FormatHours(x) == IntToDecimal(h) + "h " + IntToDecimal(m) + "m";
    }
  }

  /** A higher score never gets a worse colour. */
  lemma ColorMonotone(a: real, b: real)
    requires a <= b
    ensures ColorRank(ProductivityColor(a)) <= ColorRank(ProductivityColor(b))
  {
  }

  /** The productive hours are part of the total: between 0 and the total
      when hours are non-negative. */
  lemma ProductiveHoursBounds(data: seq<UsageRecord>)
    requires NonNegativeHours(data)
    ensures 0.0 <= ProductiveHours(data) <= SumHours(data)
  {
    SumHoursFilterBounds(data, IsProductive);
  }

  /** Only records running a productive application contribute: the
      productive hours are the total when every record is productive and 0
      when none is. */
  lemma ProductiveHoursExtremes(data: seq<UsageRecord>)
    ensures (forall i :: 0 <= i < |data| ==> IsProductive(data[i])) ==> ProductiveHours(data) == SumHours(data)
    ensures (forall i :: 0 <= i < |data| ==> !IsProductive(data[i])) ==> ProductiveHours(data) == 0.0
  {
    if forall i :: 0 <= i < |data| ==> IsProductive(data[i]) {
      FilterAll(data, IsProductive);
    }
    if forall i :: 0 <= i < |data| ==> !IsProductive(data[i]) {
      FilterNone(data, IsProductive);
    }
  }

  /** One record can count toward several named categories: the category
      filters are evaluated independently. */
  lemma OverlappingCategories()
    ensures var r := UsageRecord("Slack for Chrome", Some(1.0), Some(1), "u", "c", "ip", None);
      InCategory(r, Office) && InCategory(r, Browser)
  {
    var app := "Slack for Chrome";
    assert LowerStr(app) == "slack for chrome";
    assert LowerStr("Slack") == "slack";
    assert LowerStr("Chrome") == "chrome";
    assert OccursAt(LowerStr(app), LowerStr("Slack"), 0);
    assert OccursAt(LowerStr(app), LowerStr("Chrome"), 10);
    ContainsIff(LowerStr(app), LowerStr("Slack"));
    ContainsIff(LowerStr(app), LowerStr("Chrome"));
    assert Keywords(Office)[5] == "Slack";
    assert Keywords(Browser)[0] == "Chrome";
  }

  /** The first two mock records the main process serves (src/main.js:18-36,
      last-activity time omitted): totals, the most used app and the first
      top app. */
  lemma TwoRecordExample()
    ensures var vsc := UsageRecord("Visual Studio Code", Some(5.5), Some(23), "TestUser", "TestComputer", "127.0.0.1", None);
      var chrome := UsageRecord("Google Chrome", Some(3.2), Some(45), "TestUser", "TestComputer", "127.0.0.1", None);
      var data := [vsc, chrome];
      && SumHours(data) == 8.7
      && SumSessions(data) == 68
      && AppLabel(data[MostUsedIndex(data)]) == "Visual Studio Code"
      && TopApps(data)[0] == vsc
  {
    var vsc := UsageRecord("Visual Studio Code", Some(5.5), Some(23), "TestUser", "TestComputer", "127.0.0.1", None);
    var chrome := UsageRecord("Google Chrome", Some(3.2), Some(45), "TestUser", "TestComputer", "127.0.0.1", None);
    var data := [vsc, chrome];
    assert data[1..] == [chrome];
    assert SumSessions([chrome]) == 45;
    assert [chrome][1..] == [];
    assert SumHours([chrome]) == 3.2;
  }

  /** On equal hours the later record is reported as the most used app. */
  lemma TieGoesToLater()
    ensures var first := UsageRecord("Word", Some(2.0), Some(1), "u", "c", "ip", None);
      var second := UsageRecord("Excel", Some(2.0), Some(1), "u", "c", "ip", None);
      var data := [first, second];
      AppLabel(data[MostUsedIndex(data)]) == "Excel"
  {
  }
}
