# App usage tracker — renderer logic in Dafny

This project models the data logic of a desktop usage-tracking dashboard.
The dashboard receives usage records, one per (application, user, machine).
Each record holds total hours, a session count, a username, a computer name,
an IP address and a last-activity time. The renderer turns these records
into several views:

- the dashboard's analytics report: totals, the most used app, a
  productivity score, the top ten apps, a category breakdown, a daily
  average, and an hours formatter with a colour scale;
- the usage table's helpers: an `h:MM:SS` formatter, the average-session
  cell, the CSV export and the summary line;
- the app-level query logic: which records are shown, the quick stats, the
  search parameters, the user drop-down and the notification list;
- the settings panel's edit buffer: committed settings plus pending edits,
  with change, reset, save, load and import.

Everything is pure functions over immutable values. Records are a datatype.
Hours are exact `real`s and counts are `nat`s. Fields that may be missing
are `Option`s, and a missing number counts as 0, as `x || 0` does in the
source. Files:

| file | module(s) | models |
|---|---|---|
| `wrappers.dfy` | `Wrappers` | `Option` |
| `text.dfy` | `Text` | ASCII `toLowerCase`, `includes`, `${n}` for integers, `join`/`split` |
| `seqs.dfy` | `Seqs` | `filter`, `slice(0, n)`, `[...new Set(xs)]`, distinct counts |
| `records.dfy` | `Records` | the usage record, hour and session sums, the `n > 0 ? t / n : 0` average |
| `dashboard.dfy` | `Dashboard`, `DashboardProperties` | `src/components/Dashboard.js` |
| `usage_table.dfy` | `UsageTable`, `UsageTableProperties` | `src/components/UsageTable.js` |
| `app.dfy` | `App`, `AppProperties` | `src/App.js` |
| `settings.dfy` | `Settings`, `SettingsProperties` | `src/components/Settings.js` |

Three behaviours of the code worth knowing:

- On ties for the most used app, the **later** record wins, not the first.
  The `reduce` keeps the running winner only when it is strictly greater.
  `Dashboard.MostUsedIndex` returns the last record with maximal hours.
- Category filters are evaluated independently, so one record can count
  toward several named categories. "Other" takes only records that match no
  keyword at all. `DashboardProperties.OverlappingCategories` shows a record
  counted twice.
- The quick stats' `uniqueApps` is the number of shown records, not the
  number of distinct application names. The table's summary does count
  distinct names.

## Model

| member | source | states |
|---|---|---|
| `Text.LowerFacts` | src/App.js:144-145 | lower-casing maps `A`–`Z` onto `a`–`z`, leaves every other character alone, and is idempotent |
| `Text.ContainsIff` | src/App.js:144-145 | the `includes` scan is true exactly when the needle occurs at some start position in the haystack |
| `Text.DecimalRoundTrip` | src/components/Dashboard.js:85 | reading back the decimal digits written for a number gives that number |
| `Text.SignedRoundTrip` | src/components/Dashboard.js:85 | the text of a possibly negative integer is a minus sign plus digits, or digits alone, and reads back as that integer |
| `Text.SplitJoin` | src/components/UsageTable.js:226-236 | splitting on the separator undoes `join` when no piece contains the separator |
| `Seqs.Filter` | src/App.js:142-153 | `filter` returns a subsequence of its input whose elements all pass the test, keeping every passing element as often as it occurs in the input |
| `Seqs.Dedup` | src/App.js:33 | `[...new Set(xs)]` has no repeats, holds exactly the values of `xs`, and lists them in order of first occurrence |
| `Seqs.ElemsBound` | src/components/UsageTable.js:258-259 | a `Set` built from a list has at most as many values as the list has elements, and at least one when the list is non-empty |
| `Seqs.DedupSize` | src/App.js:33 | the de-duplicated list is exactly as long as the `Set` is large |
| `Records.Ratio` | src/components/UsageTable.js:266 | the average times the count gives back the total when the count is positive; otherwise the average is 0 |
| `Records.SumHoursFilterBounds` | src/components/Dashboard.js:29-31 | with non-negative hours, the hours of a filtered subset lie between 0 and the total |
| `Records.SumHoursFilterSplit` | src/components/Dashboard.js:50-61 | the hours of the records a test keeps, plus the hours of the records its complement keeps, equal the total |
| `Dashboard.Analyze` | src/components/Dashboard.js:4-79 | empty data gives zeros, "N/A", and empty lists; otherwise the totals are the sums of hours and sessions, the daily average is a seventh of the total hours, and the other fields are the most used app, score, top apps and breakdown below |
| `Dashboard.MostUsedIndex` | src/components/Dashboard.js:23-25 | the chosen record has hours at least those of every record, and every later record has strictly fewer hours, so ties go to the later record |
| `Dashboard.Percentage` | src/components/Dashboard.js:32 | for a positive total the percentage times the total is 100 times the part; otherwise it is 0 |
| `Dashboard.SortByHours` | src/components/Dashboard.js:35-36 | the sorted copy is a permutation of the input, ordered by hours from most to fewest |
| `Dashboard.TopApps` | src/components/Dashboard.js:35-37 | the top apps number min(10, \|data\|), are ordered by hours from most to fewest, and are drawn from the data without duplication; no record left out has more hours than any record kept |
| `Dashboard.ProductivityColor` | src/components/Dashboard.js:88-92 | green exactly from 70, amber exactly from 40 up to 70, red exactly below 40 |
| `DashboardProperties.ScoreBounds` | src/components/Dashboard.js:28-32 | with non-negative hours the productivity score lies in [0, 100] |
| `DashboardProperties.ProductiveHoursBounds` | src/components/Dashboard.js:28-31 | `ProductiveHours`, the hours of records running a productive application, lie between 0 and the total hours when hours are non-negative |
| `DashboardProperties.ProductiveHoursExtremes` | src/components/Dashboard.js:28-31 | `ProductiveHours` is the total when every record runs a productive application and 0 when none does |
| `DashboardProperties.BreakdownEntries` | src/components/Dashboard.js:49-68 | `Breakdown`: the breakdown keeps the fixed category order, and every entry has positive hours and its share of the total hours as its percentage |
| `DashboardProperties.BreakdownListsPositive` | src/components/Dashboard.js:63-68 | a category's entry is listed exactly when that category's hours are positive |
| `DashboardProperties.CategorisedIff` | src/components/Dashboard.js:52-59 | a record matches the flattened keyword list exactly when it matches the keywords of some named category |
| `DashboardProperties.OtherIsRemainder` | src/components/Dashboard.js:50-61 | the "Other" hours plus the hours of records some category claims equal the total hours |
| `DashboardProperties.OverlappingCategories` | src/components/Dashboard.js:50-61 | an application named after both a chat tool and a browser counts toward both Office and Browser |
| `DashboardProperties.MinutesBounds` | src/components/Dashboard.js:83-84 | the whole minutes of the fractional hour are below 60, and the hours and minutes bracket the value to the minute |
| `DashboardProperties.HoursTextReadBack` | src/components/Dashboard.js:85 | text built as "<h>h <m>m" reads back as h and m |
| `DashboardProperties.FormatHoursReadBack` | src/components/Dashboard.js:81-86 | `Dashboard.FormatHours`: for every input, including zero and negative values, the hours text reads back as the floor of the hours and the whole minutes of the remainder, with minutes below 60 |
| `DashboardProperties.ColorMonotone` | src/components/Dashboard.js:88-92 | a higher score never gets a worse colour |
| `DashboardProperties.TwoRecordExample` | src/components/Dashboard.js:19-37 | for a Code record (5.5 h, 23 sessions) and a Chrome record (3.2 h, 45 sessions), the totals are 8.7 h and 68 sessions, and Code is both the most used app and the first top app |
| `DashboardProperties.TieGoesToLater` | src/components/Dashboard.js:23-25 | of two records with equal hours, the later one is reported as the most used app |
| `UsageTable.JsRem` | src/components/UsageTable.js:9-10 | JavaScript's `%`: the remainder is strictly between -b and b, is non-negative for a non-negative dividend and non-positive for a negative one, and completes the quotient truncated toward zero back to the dividend |
| `UsageTable.AverageSession` | src/components/UsageTable.js:112-120 | the average session times the session count gives the hours when there are sessions; otherwise the average is 0 |
| `UsageTableProperties.AverageSessionCellReadBack` | src/components/UsageTable.js:112-120 | `AverageSessionCell` is the clock text of the average session: for non-negative hours the average is non-negative and the cell reads back as the average in whole seconds |
| `UsageTable.Summary` | src/components/UsageTable.js:255-268 | the summary holds the sums of hours and sessions and the numbers of distinct apps and users; its average times the sessions gives the hours, or it is 0 without sessions |
| `UsageTableProperties.Pad2Facts` | src/components/UsageTable.js:12 | a minutes or seconds field below 60 is exactly two digits that read back as the number |
| `UsageTableProperties.ClockArithmetic` | src/components/UsageTable.js:7-10 | hours·3600 + minutes·60 + seconds gives back the total seconds, with minutes and seconds below 60 |
| `UsageTableProperties.ClockTextReadBack` | src/components/UsageTable.js:8-12 | the clock text of a non-negative number of seconds reads back as that number |
| `UsageTableProperties.ClockRoundTrip` | src/components/UsageTable.js:4-13 | `UsageTable.FormatHours`: for non-negative hours, including 0, the text is "h:MM:SS" with two-digit minutes and seconds below 60, and reads back as ⌊hours·3600⌋ seconds |
| `UsageTableProperties.DefaultHeadersDistinct` | src/components/UsageTable.js:215-223 | the table's default columns have distinct headers, so the cell and line properties below hold for the default export |
| `UsageTableProperties.RowDataLookup` | src/components/UsageTable.js:215-223 | `RowData`: with distinct headers, each cell holds its own column's field, or nothing for a column without an accessor |
| `UsageTableProperties.RowDataNoSupplier` | src/components/UsageTable.js:215-223 | a header that no column with an accessor carries has no value in the row data, so its cells are empty |
| `UsageTableProperties.RowDataLastSupplier` | src/components/UsageTable.js:215-223 | under a shared header the row data holds the field of the last column with that header that has an accessor; later columns without an accessor do not overwrite it |
| `UsageTableProperties.DuplicateHeaderExample` | src/components/UsageTable.js:217-220 | for two columns that share a header and both have an accessor, both cells show the later column's value |
| `UsageTableProperties.DuplicateHeaderNoAccessor` | src/components/UsageTable.js:217-220 | when the later of two columns sharing a header has no accessor, both cells show the earlier column's value |
| `UsageTableProperties.CellQuoting` | src/components/UsageTable.js:229-233 | `CellText`: when numbers print without commas, a cell contains a comma exactly when its value is a string with a comma, and then it is that string between double quotes; other strings are emitted unchanged |
| `UsageTableProperties.QuotesNotEscaped` | src/components/UsageTable.js:231-233 | double quotes inside a quoted value are not escaped |
| `UsageTableProperties.RowLineFields` | src/components/UsageTable.js:228-235 | when no value contains a comma, splitting a row line on commas gives one cell per column, each its column's value |
| `UsageTableProperties.CsvLines` | src/components/UsageTable.js:226-236 | `Csv`: when nothing contains a line break, the export is the header line followed by exactly one line per row, in row order |
| `UsageTableProperties.SummaryBounds` | src/components/UsageTable.js:258-259 | the distinct app and user counts are at most the row count and at least 1 for a non-empty table; the user count equals the length of the de-duplicated user list |
| `App.FilteredData` | src/App.js:142-153 | the shown records are a subsequence of the data, each passes every test, and every record that passes is kept as often as it occurs |
| `App.GetQuickStats` | src/App.js:161-173 | the quick stats hold the sums of hours and sessions, use the number of shown records as `uniqueApps`, and give an average that times the sessions is the hours, or 0 without sessions |
| `App.BuildParams` | src/App.js:73-83 | a non-empty start date becomes the date plus "T00:00:00" and a non-empty end date the date plus "T23:59:59"; an empty date is null; the user is null exactly when "all" is selected and otherwise the selected user; the term is null exactly when it is empty and otherwise the term; the sort settings pass through |
| `App.AddNotification` | src/App.js:123-130 | the new notification is appended after the existing ones, which stay as they were; its type defaults to "info" |
| `App.RemoveNotification` | src/App.js:138-140 | the result keeps, in order, exactly the entries with a different id |
| `AppProperties.FilteredDataSound` | src/App.js:142-153 | every shown record has a non-empty application name other than "Pick an app"; it belongs to the selected user unless "all" is selected; with a non-empty term, its application or user name contains the term, ignoring ASCII case |
| `AppProperties.FilteredDataComplete` | src/App.js:142-153 | every record that passes all tests is shown; the empty term and the "all" selection disable their tests |
| `AppProperties.SearchExample` | src/App.js:142-153 | searching "chrome" among a Code record and a Chrome record shows the Chrome record only |
| `AppProperties.ParamsRoundTrip` | src/App.js:74-81 | the form can be read back from the parameters built from it, so no input is lost: a date is the parameter with its own time suffix (start or end of day) removed, and null means "all" or the empty term |
| `AppProperties.UniqueUsersSpec` | src/App.js:33 | `App.UniqueUsers`: the user list has no repeats, contains exactly the fetched usernames, and orders them by first appearance |
| `AppProperties.ExpiryUndoesAdd` | src/App.js:123-135 | removing the id of a notification just added gives the old list with that id removed, so an older entry with the same id goes too |
| `AppProperties.RemoveAbsentId` | src/App.js:138-140 | removing an id no entry carries leaves the list unchanged |
| `Settings.Change` | src/components/Settings.js:51-56 | a change sets the key in the buffer, keeps every other key's value, adds no other key, and leaves the committed settings alone |
| `Settings.Reset` | src/components/Settings.js:76-79 | reset makes the buffer equal to the committed settings |
| `Settings.Save` | src/components/Settings.js:58-74 | a successful save commits the buffer; a failed save changes nothing |
| `Settings.Load` | src/components/Settings.js:33-45 | a parsed stored entry replaces both slots; a missing or unparsable one changes nothing |
| `Settings.Import` | src/components/Settings.js:93-109 | a parsed file replaces the buffer only and never the committed settings; an invalid file or no file leaves the state unchanged; only when there is no file is nothing reported |
| `SettingsProperties.InitialClean` | src/components/Settings.js:12-31 | `Settings.Initial`: both slots start from the defaults (notifications on, idle threshold 300, log level "info", no monitored apps), so nothing is pending |
| `SettingsProperties.HasChangesIff` | src/components/Settings.js:47-49 | `Settings.HasChanges`: changes are pending exactly when some key is in one slot and not the other, or holds different values in the two |
| `SettingsProperties.ChangeFromClean` | src/components/Settings.js:47-56 | from a clean state, a change is pending exactly when it sets a value different from the committed one |
| `SettingsProperties.ResolvingChanges` | src/components/Settings.js:58-79 | after a reset or a successful save nothing is pending; a failed save leaves the pending flag as it was |
| `SettingsProperties.ChangeThenReset` | src/components/Settings.js:51-79 | a change followed by a reset returns the buffer to the committed settings |
| `SettingsProperties.LoadClears` | src/components/Settings.js:33-49 | after a successful load nothing is pending |
| `SettingsProperties.ImportPending` | src/components/Settings.js:93-109 | after an import, changes are pending exactly when the file differs from the committed settings |
| `SettingsProperties.CommittedOnlyBySaveOrLoad` | src/components/Settings.js:33-109 | no sequence of changes, resets, failed saves, failed loads or imports alters the committed settings |
| `SettingsProperties.SaveLast` | src/components/Settings.js:58-74 | whatever came before, a final successful save commits the buffer as it stood and leaves nothing pending |

## Left out

- The Electron main process, IPC wiring, the preload bridge, the database stub and the webpack config are not modelled. They register handlers and return fixed mock data. The record store is replaced by the record list that the functions take as input.
- The table's sorting, column filters, global filter and pagination are not modelled. They come from the react-table library, whose code is not part of this model. The CSV and summary functions take the table's current rows as given.
- Timers are not modelled: the auto-refresh interval, the five-second notification expiry, and the ordering of asynchronous fetches. The expiry's effect is the same removal as `RemoveNotification`, covered by `AppProperties.ExpiryUndoesAdd`.
- Browser I/O is not modelled: `localStorage`, `FileReader`, `Blob`, download links and `window.confirm`. Settings export and "clear all data" are I/O only and are left out too.
- JSON parsing is not modelled. Its outcome is a parameter: nothing stored or no file, unparsable, or a parsed settings map. A file that parses to something other than an object is not represented.
- Settings.Save: the local-storage write that happens before the backend save is not modelled. A failure after that write leaves the stored copy updated. The model tracks only the two in-memory slots.
- Settings.Save: the save is treated as one atomic step. The source awaits the backend and then commits the buffer as it stood when Save was clicked. Edits or a reset made while the save is pending stay in the buffer and are still pending afterwards. `SaveLast` does not cover that interleaving.
- Floating point is not modelled. Hours are exact reals, so sums are exact, whereas JavaScript's left-to-right float sums may differ in the last bits. `toFixed(2)` in the quick stats, `toLocaleString` and date formatting are left out.
- `NaN` hours, which `|| 0` also turns into 0, are not modelled.
- JavaScript's number-to-text conversion for CSV numbers is a parameter, `numeral`. Integers written by `${}` are modelled as plain decimal. The exponent form JavaScript uses above 10^21 is left out.
- `toLowerCase` is modelled for ASCII letters only. Unicode case mapping is left out.
- `hasChanges` compares `JSON.stringify` texts, which depends on key order. The model compares the maps structurally.
- A record without an `app` field is not modelled: the application name is always a string, and "" plays the missing name in `filteredData`. With such a record the dashboard's keyword matching would throw.
- The empty report's `hourlyDistribution` and `userActivity` arrays are not modelled. They are never filled and never read.
- JSX rendering, the SVG score ring, the random trend bars and the theme toggle are not modelled. Neither are the insight texts, including the session-pattern line, which is shown only when there are sessions, and the process table.
- `Dashboard.TopApps`: the order among records with equal hours is left unstated. The insertion sort keeps such records in input order, as JavaScript's stable sort does, but no lemma states it.
- `UsageTable.FormatHours`: negative inputs follow the source's arithmetic, including JavaScript's sign-of-dividend `%`, but no property is stated for them. Hours are never negative in the data model.
