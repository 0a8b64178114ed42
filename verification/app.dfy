/** The top-level component's query logic: which fetched records are shown,
    the quick-stats strip, the parameters sent with a search, the user
    drop-down and the notification list. */
module App {
  import opened Wrappers
  import opened Text
  import opened Seqs
  import opened Records

  /* ---------- the shown records ---------- */

  /** The placeholder application name that is never shown. */
  const Placeholder := "Pick an app"

  /** The user selection that disables the user test. */
  const AllUsers := "all"

  predicate MatchesSearch(r: UsageRecord, searchTerm: string) {
    searchTerm == ""
      || ContainsIgnoringCase(r.app, searchTerm)
      || ContainsIgnoringCase(r.username, searchTerm)
  }

  predicate MatchesUser(r: UsageRecord, selectedUser: string) {
    selectedUser == AllUsers || r.username == selectedUser
  }

  /** The predicate `filteredData` applies to each record. */
  predicate Shown(r: UsageRecord, searchTerm: string, selectedUser: string) {
    r.app != "" && r.app != Placeholder && MatchesSearch(r, searchTerm) && MatchesUser(r, selectedUser)
  }

  function ShownTest(searchTerm: string, selectedUser: string): UsageRecord -> bool {
    r => Shown(r, searchTerm, selectedUser)
  }

  /** `filteredData`: the fetched records that pass every test, in order. */
  function FilteredData(data: seq<UsageRecord>, searchTerm: string, selectedUser: string): (r: seq<UsageRecord>)
    ensures IsSubsequence(r, data)
    ensures forall i :: 0 <= i < |r| ==> Shown(r[i], searchTerm, selectedUser)
    ensures forall i :: 0 <= i < |data| && Shown(data[i], searchTerm, selectedUser) ==>
              multiset(r)[data[i]] == multiset(data)[data[i]]
  {
    Filter(data, ShownTest(searchTerm, selectedUser))
  }

  /* ---------- quick stats ---------- */

  datatype QuickStats = QuickStats(totalHours: real, totalSessions: nat, uniqueApps: nat, avgSessionTime: real)

  /** `getQuickStats` over the shown records. `uniqueApps` is the number of
      shown records, not of distinct application names. */
  function GetQuickStats(filtered: seq<UsageRecord>): (q: QuickStats)
    ensures q.totalHours == SumHours(filtered) && q.totalSessions == SumSessions(filtered)
    ensures q.uniqueApps == |filtered|
    ensures q.totalSessions > 0 ==> q.avgSessionTime * q.totalSessions as real == q.totalHours
    ensures q.totalSessions == 0 ==> q.avgSessionTime == 0.0
  {
    var hours := SumHours(filtered);
    var sessions := SumSessions(filtered);
    QuickStats(hours, sessions, |filtered|, Ratio(hours, sessions))
  }

  /* ---------- search parameters ---------- */

  /** The form state a search is built from. */
  datatype SearchForm = SearchForm(
    startDate: string,
    endDate: string,
    selectedUser: string,
    searchTerm: string,
    sortBy: string,
    sortOrder: string)

  /** The parameters sent to the record store; `None` is `null`. */
  datatype SearchParams = SearchParams(
    startDate: Option<string>,
    endDate: Option<string>,
    username: Option<string>,
    searchTerm: Option<string>,
    sortBy: string,
    sortOrder: string)

  const StartOfDay := "T00:00:00"
  const EndOfDay := "T23:59:59"

  /** `handleSearch`'s parameter object. */
  function BuildParams(f: SearchForm): (p: SearchParams)
    ensures p.startDate.None? <==> f.startDate == ""
    ensures p.endDate.None? <==> f.endDate == ""
    ensures p.username.None? <==> f.selectedUser == AllUsers
    ensures p.searchTerm.None? <==> f.searchTerm == ""
    ensures f.startDate != "" ==> p.startDate == Some(f.startDate + StartOfDay)
    ensures f.endDate != "" ==> p.endDate == Some(f.endDate + EndOfDay)
    ensures f.selectedUser != AllUsers ==> p.username == Some(f.selectedUser)
    ensures f.searchTerm != "" ==> p.searchTerm == Some(f.searchTerm)
    ensures p.sortBy == f.sortBy && p.sortOrder == f.sortOrder
  {
    SearchParams(
      if f.startDate != "" then Some(f.startDate + StartOfDay) else None,
      if f.endDate != "" then Some(f.endDate + EndOfDay) else None,
      if f.selectedUser != AllUsers then Some(f.selectedUser) else None,
      if f.searchTerm != "" then Some(f.searchTerm) else None,
      f.sortBy,
      f.sortOrder)
  }

  /** Drops the given time suffix when the text ends with it, or gives ""
      for `null`. */
  function DateOf(t: Option<string>, suffix: string): string {
    match t
    case None => ""
    case Some(s) =>
      if |s| >= |suffix| && s[|s| - |suffix|..] == suffix then s[..|s| - |suffix|] else s
  }

  /** Recovers the form from the parameters. */
  function FormOf(p: SearchParams): SearchForm {
    SearchForm(
      DateOf(p.startDate, StartOfDay),
      DateOf(p.endDate, EndOfDay),
      p.username.GetOr(AllUsers),
      p.searchTerm.GetOr(""),
      p.sortBy,
      p.sortOrder)
  }

  /* ---------- the user list ---------- */

  /** `[...new Set(fetchedData.map(item => item.username))]`. */
  function UniqueUsers(fetched: seq<UsageRecord>): seq<string> {
    Dedup(Usernames(fetched))
  }

  /* ---------- notifications ---------- */

  datatype Notification = Notification(id: int, message: string, kind: string, timestamp: int)

  /** `addNotification(message, type = 'info')`; `id` is `Date.now()` and
      `timestamp` the time of `new Date()`, both supplied by the caller. */
  function AddNotification(list: seq<Notification>, message: string, kind: Option<string>, id: int, timestamp: int)
    : (r: seq<Notification>)
    ensures |r| == |list| + 1 && r[..|list|] == list
    ensures r[|list|] == Notification(id, message, kind.GetOr("info"), timestamp)
  {
    list + [Notification(id, message, kind.GetOr("info"), timestamp)]
  }

  function HasOtherId(id: int): Notification -> bool {
    (n: Notification) => n.id != id
  }

  /** `removeNotification(id)`, and equally the expiry timer's removal. */
  function RemoveNotification(list: seq<Notification>, id: int): (r: seq<Notification>)
    ensures IsSubsequence(r, list)
    ensures forall i :: 0 <= i < |r| ==> r[i].id != id
    ensures forall i :: 0 <= i < |list| && list[i].id != id ==> multiset(r)[list[i]] == multiset(list)[list[i]]
  {
    Filter(list, HasOtherId(id))
  }
}

/** Properties of the App component's query logic. */
module AppProperties {
  import opened Wrappers
  import opened Text
  import opened Seqs
  import opened Records
  import opened App

  /** Every shown record has a real application name, belongs to the
      selected user unless "all" is selected, and contains the search term
      in its application or user name, ignoring ASCII case. */
  lemma FilteredDataSound(data: seq<UsageRecord>, searchTerm: string, selectedUser: string, i: nat)
    requires i < |FilteredData(data, searchTerm, selectedUser)|
    ensures var x := FilteredData(data, searchTerm, selectedUser)[i];
      && x.app != "" && x.app != Placeholder
      && (selectedUser != AllUsers ==> x.username == selectedUser)
      && (searchTerm != "" ==>
            (exists k :: OccursAt(LowerStr(x.app), LowerStr(searchTerm), k))
            || (exists k :: OccursAt(LowerStr(x.username), LowerStr(searchTerm), k)))
  {
    var x := FilteredData(data, searchTerm, selectedUser)[i];
    ContainsIff(LowerStr(x.app), LowerStr(searchTerm));
    ContainsIff(LowerStr(x.username), LowerStr(searchTerm));
  }

  /** A record with a real application name that passes the user test and
      whose application or user name contains the term is shown; the empty
      term and the "all" selection disable their tests. */
  lemma FilteredDataComplete(data: seq<UsageRecord>, searchTerm: string, selectedUser: string, x: UsageRecord)
    requires x in data && x.app != "" && x.app != Placeholder
    requires selectedUser == AllUsers || x.username == selectedUser
    requires searchTerm == ""
      || (exists k :: OccursAt(LowerStr(x.app), LowerStr(searchTerm), k))
      || (exists k :: OccursAt(LowerStr(x.username), LowerStr(searchTerm), k))
    ensures x in FilteredData(data, searchTerm, selectedUser)
  {
    ContainsIff(LowerStr(x.app), LowerStr(searchTerm));
    ContainsIff(LowerStr(x.username), LowerStr(searchTerm));
    var i :| 0 <= i < |data| && data[i] == x;
    var r := FilteredData(data, searchTerm, selectedUser);
    assert multiset(r)[x] == multiset(data)[x];
    assert x in multiset(data);
  }

  /** The first two mock records the main process serves (src/main.js:18-36,
      last-activity time omitted): searching "chrome" shows the Chrome
      record only. */
  lemma SearchExample()
    ensures var vsc := UsageRecord("Visual Studio Code", Some(5.5), Some(23), "TestUser", "TestComputer", "127.0.0.1", None);
      var chrome := UsageRecord("Google Chrome", Some(3.2), Some(45), "TestUser", "TestComputer", "127.0.0.1", None);
      FilteredData([vsc, chrome], "chrome", AllUsers) == [chrome]
  {
    var vsc := UsageRecord("Visual Studio Code", Some(5.5), Some(23), "TestUser", "TestComputer", "127.0.0.1", None);
    var chrome := UsageRecord("Google Chrome", Some(3.2), Some(45), "TestUser", "TestComputer", "127.0.0.1", None);
    var p := ShownTest("chrome", AllUsers);
    NotShownExample(vsc);
    ShownExample(chrome);
    var s := [vsc, chrome];
    assert s[1..] == [chrome];
    assert Filter(s, p) == Filter([chrome], p);
    assert [chrome][1..] == [];
    assert Filter([chrome], p) == [chrome] + Filter([], p);
  }

  lemma NotShownExample(r: UsageRecord)
    requires r.app == "Visual Studio Code" && r.username == "TestUser"
    ensures !ShownTest("chrome", AllUsers)(r)
  {
    NoLetterH("Visual Studio Code");
    NoLetterH("TestUser");
    assert LowerStr("chrome")[1] == 'h';
    MissingCharNotContained(LowerStr(r.app), LowerStr("chrome"), 'h');
    MissingCharNotContained(LowerStr(r.username), LowerStr("chrome"), 'h');
  }

  lemma NoLetterH(s: string)
    requires forall i :: 0 <= i < |s| ==> s[i] != 'h' && s[i] != 'H'
    ensures 'h' !in LowerStr(s)
  {
  }

  lemma ShownExample(r: UsageRecord)
    requires r.app == "Google Chrome"
    ensures ShownTest("chrome", AllUsers)(r)
  {
    assert LowerStr("chrome") == "chrome";
    assert LowerStr("Google Chrome") == "google chrome";
    assert OccursAt("google chrome", "chrome", 7);
    ContainsIff("google chrome", "chrome");
  }

  /** Reading the form back from the parameters gives the form that built
      them, for every form: nothing the search needs is lost. */
  lemma ParamsRoundTrip(f: SearchForm)
    ensures FormOf(BuildParams(f)) == f
  {
    if f.startDate != "" {
      assert (f.startDate + StartOfDay)[|f.startDate|..] == StartOfDay;
      assert (f.startDate + StartOfDay)[..|f.startDate|] == f.startDate;
    }
    if f.endDate != "" {
      assert (f.endDate + EndOfDay)[|f.endDate|..] == EndOfDay;
      assert (f.endDate + EndOfDay)[..|f.endDate|] == f.endDate;
    }
  }

  /** The user list has no repeats, holds exactly the fetched usernames, and
      lists them in order of first appearance. */
  lemma UniqueUsersSpec(fetched: seq<UsageRecord>)
    ensures var users := UniqueUsers(fetched);
      && Distinct(users)
      && (forall u :: u in users <==> exists i :: 0 <= i < |fetched| && fetched[i].username == u)
      && (forall i, j :: 0 <= i < j < |users| ==>
            FirstIndex(Usernames(fetched), users[i]) < FirstIndex(Usernames(fetched), users[j]))
  {
    var names := Usernames(fetched);
    var users := UniqueUsers(fetched);
    forall u
      ensures u in users <==> exists i :: 0 <= i < |fetched| && fetched[i].username == u
    {
      assert u in users <==> u in Elems(users);
      assert u in names <==> u in Elems(names);
      if u in names {
        var i :| 0 <= i < |names| && names[i] == u;
        assert fetched[i].username == u;
      }
      if exists i :: 0 <= i < |fetched| && fetched[i].username == u {
        var i :| 0 <= i < |fetched| && fetched[i].username == u;
        assert names[i] == u;
      }
    }
  }

  /** Removing the id of a notification just added (what its expiry timer
      does) gives the list with that id removed: the new entry goes, and so
      does any older entry that happened to get the same id. */
  lemma ExpiryUndoesAdd(list: seq<Notification>, message: string, kind: Option<string>, id: int, timestamp: int)
    ensures RemoveNotification(AddNotification(list, message, kind, id, timestamp), id) == RemoveNotification(list, id)
  {
    var n := Notification(id, message, kind.GetOr("info"), timestamp);
    FilterAppendRejected(list, n, HasOtherId(id));
  }

  /** Removing an id no entry carries leaves the list as it was. */
  lemma RemoveAbsentId(list: seq<Notification>, id: int)
    requires forall i :: 0 <= i < |list| ==> list[i].id != id
    ensures RemoveNotification(list, id) == list
  {
    FilterAll(list, HasOtherId(id));
  }

  lemma {:induction false} FilterAppendRejected<T>(s: seq<T>, x: T, p: T -> bool)
    requires !p(x)
    ensures Filter(s + [x], p) == Filter(s, p)
  {
    if |s| == 0 {
      assert s + [x] == [x];
      assert [x][1..] == [];
    } else {
      assert (s + [x])[1..] == s[1..] + [x];
      FilterAppendRejected(s[1..], x, p);
    }
  }
}
