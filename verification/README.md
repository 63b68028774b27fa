# Ferry voyage log — Dafny model

A model of a small web application used by a ferry operator. Captains and chief engineers record voyages in it: ship, crew, departure and arrival times, passengers, fuel and a memo. An administrator runs the rest:

- a live dashboard, with ships under way, today's passengers, an hourly table per route and a capacity summary;
- the voyage list, with filters, multi-select, spreadsheet export and a printable daily sheet;
- user and ship management;
- the Telegram notification page.

The application shell keeps the four collections in memory. It mirrors every change to a storage service, raises a simulated alert when a voyage departs or arrives, and shows each role its own menu.

The model is written as pure functions over immutable datatypes:

- `types.dfy` (`Types`): the records, the role labels, the status strings and the page ids.
- `text.dfy` (`Text`): the JavaScript string operations the pages rely on. These are `split('T')[0]`, `split('T')[1]` (which can be undefined), `startsWith`, `includes`, ASCII lower-casing, ordering, decimal printing and `padStart`.
- `collections.dfy` (`Collections`): filtering, passenger sums, find-by-id, the "replace in place or insert" update and the checkbox toggle.
- `app.dfy` (`App`): saving and deleting, arrival/departure alerts, login routing, the captain's view of the log list and the storage sync.
- `log_entry.dfy` (`LogEntry`): the voyage form.
- `dashboard.dfy` (`Dashboard`): the dashboard figures and the hourly route table.
- `log_list.dfy` (`LogList`): filters, sorting, selection, export rows and the print sheet.
- `user_management.dfy` (`UserManagement`): the user editor.
- `ship_management.dfy` (`ShipManagement`): the ship editor.
- `telegram.dfy` (`Telegram`): the settings page and its send-status machine.
- `layout.dfy` (`Layout`): the role-filtered menu.
- `seed.dfy` (`Seed`): the demonstration users, ships and generated voyages.

Some JavaScript behaviour is modelled explicitly:

- An absent or empty optional string is `Option<string>` plus `Truthy`.
- `split('T')[1]` on a string without `T` is `None`. Where the page would then call a method on it, and so throw, the operation returns `None`.
- `Number(x) || 0` is `NumberOrZero`.
- `Array.prototype.sort` is modelled as a stable insertion sort.
- The two `setTimeout` callbacks of the send button are pending timers. The environment fires them in any order.

The clock (`Date.now()`, `toISOString()`) and `Math.random()` are parameters.

The record type declares no `departureLocation` or `arrivalLocation` field, yet the dashboard reads both. The model adds them to `OperationLog` as optional fields. Every log the application creates leaves them absent, as the code does.

## Model

| member | source | states |
|---|---|---|
| Types.RoleLabelRoundTrip | types.ts:2-7 | every role's stored label parses back to that role, so the four labels are distinct |
| Types.StatusTextRoundTrip | types.ts:38 | the two status strings identify the status |
| Types.ViewIdRoundTrip | types.ts:47-53 | each page id names exactly one page |
| Text.SplitStamp | pages/LogList.tsx:48-52 | a `date T time` stamp splits back into its date and its time |
| Text.SecondField | pages/LogList.tsx:52 | `split(c)[1]` is absent exactly when there is no separator; otherwise it is the text after the first separator up to the next one or the end |
| Text.SecondFieldOfThree | pages/LogList.tsx:52 | with several separators the field taken is the one between the first and the second |
| Text.AfterFirst | pages/Dashboard.tsx:25 | the text after the first separator is absent exactly when the separator is missing; otherwise the string is the prefix, separator and rest |
| Text.NatToStringRoundTrip | constants.ts:28 | the decimal text of a number reads back as that number, so generated ids are distinct |
| Text.NumberedIdInjective | pages/LogEntry.tsx:86 | ids built from a prefix and a number, such as `log-` and the clock, differ whenever the numbers differ |
| Text.LexLessTransitive | pages/LogList.tsx:31 | the string order used for sorting is transitive |
| Text.LexLessTotal | pages/Dashboard.tsx:43 | any two different strings are ordered one way or the other |
| Collections.Filter | App.tsx:75 | a filtered list keeps exactly the elements satisfying the predicate, with their multiplicities, and is as long as the input only if every element passes |
| Collections.FilterLength | pages/Dashboard.tsx:87 | a filtered list is as long as the number of elements the filter accepts |
| Collections.FilterConcat | pages/LogList.tsx:26-30 | filtering works piecewise, so it keeps the list order |
| Collections.SumPassengersOfFilter | pages/Dashboard.tsx:17 | summing the passengers of the filtered logs equals the guarded sum over all logs |
| Collections.FindById | App.tsx:51 | `find` by id yields the first element of the list carrying that id, and nothing exactly when no element has it |
| Collections.IndexOfId | App.tsx:61 | `findIndex` yields the first position holding the id, and nothing exactly when the id is absent |
| Collections.UpsertFront | App.tsx:60-68 | a log whose id is stored replaces the first log with that id, every other position unchanged; a new log goes in front of the unchanged list |
| Collections.UpsertBack | App.tsx:78-86 | a user or ship whose id is stored replaces the first one with that id, every other position unchanged; a new one is appended after the unchanged list |
| Collections.UpsertFrontThenFind | App.tsx:60-68 | after a log is saved, looking its id up finds the saved log |
| Collections.UpsertBackIdempotent | App.tsx:78-86 | saving the same user twice is the same as saving it once |
| Collections.RemoveId | App.tsx:75-77 | deletion keeps exactly the elements with another id; afterwards no element has the id, and the list shrinks exactly when one had it |
| Collections.RemoveIdConcat | App.tsx:77 | deleting by id works piecewise, so the survivors keep their order |
| Collections.Toggle | pages/LogList.tsx:43 | a selected id is removed, every occurrence of it, and an unselected one is appended; no other id changes membership |
| Collections.ToggleTwiceRestores | pages/TelegramSettings.tsx:21-23 | ticking an unticked id twice restores the exact selection |
| App.AlertFor | App.tsx:50-58 | an arrival alert fires exactly for a completed log with an arrival time whose stored version had none; a departure alert only for a new log with a departure time; a log that had already arrived never alerts again |
| App.SaveLog | App.tsx:48-73 | a saved log replaces the log with its id in place, or goes to the front when new; the alert is decided on the list before the save; only an administrator is sent to the log list |
| App.NoAlertAfterArrival | App.tsx:54 | once a log with an arrival time is stored, no later save of that id raises an alert |
| App.VoyageAlertScenario | App.tsx:50-58 | a new voyage raises a departure alert, and completing it later raises an arrival alert |
| App.SaveLogIdempotent | App.tsx:60-68 | saving the same log twice leaves the list as one save does |
| App.DeleteLog | App.tsx:75 | a log deletion keeps every log with another id and removes every log with that id; the list shrinks exactly when the id was present |
| App.DeleteLogLaws | App.tsx:75 | deleting a log id is idempotent and works piecewise on the list |
| App.DeleteUser | App.tsx:77 | a user deletion keeps every other user and removes every user with that id; the list shrinks exactly when the id was present |
| App.DeleteShip | App.tsx:88 | as for users, for ships |
| App.SaveUser | App.tsx:78-86 | an existing user is replaced in place with every other position unchanged; a new user is appended |
| App.SaveShip | App.tsx:89-97 | as for users, for ships |
| App.SaveUserIdempotent | App.tsx:78-86 | saving a user twice equals saving it once |
| App.LandingView | App.tsx:37-44 | captains and chief engineers land on the entry form; administrators and crew land on the dashboard |
| App.VisibleLogs | App.tsx:156 | a captain's list holds exactly that captain's logs in stored order; every other role sees all logs |
| App.SyncAsWritten | App.tsx:32-35 | a changed user or ship list that is empty is never written, so storage keeps the old list; a non-empty list, the logs and the configuration are stored just as the corrected sync stores them after the load |
| App.SyncAsWrittenVersusAfterLoad | App.tsx:32-35 | after the load, the sync as written stores the same as the corrected sync exactly unless a changed user or ship list is empty while storage holds a non-empty one |
| App.MountOverwritesStoredLogs | App.tsx:32-35 | on first render the sync writes an empty log list and a blank configuration over whatever was stored, while users survive |
| App.LastUserDeletionNotPersisted | App.tsx:32 | deleting the only user leaves it in storage |
| App.SyncAfterLoad | App.tsx:24-35 | corrected sync: nothing is written before the initial load; afterwards exactly the changed collections are written, empty ones included |
| App.SyncAfterLoadFixesBoth | App.tsx:18-35 | under the corrected sync, the first render keeps storage intact and deleting the only user is persisted |
| LogEntry.OpenForm | pages/LogEntry.tsx:37-56 | editing loads the log as the form; a new form keeps every earlier field except the departure time, which it stamps, and, for a captain only, the captain id and name, which it sets to the signed-in user |
| LogEntry.CaptainNewVoyageDraft | pages/LogEntry.tsx:42-48 | a captain opening a new form with ship and engineer chosen can save a draft that carries their own id, the opening time and the chosen ship and engineer |
| LogEntry.OpenEditedThenSave | pages/LogEntry.tsx:38-39 | opening a stored log for editing and saving it with its status gives the log back, names re-read from the users |
| LogEntry.DraftButton | pages/LogEntry.tsx:269-271 | the draft button saves exactly when ship, captain, engineer and departure time are filled in, and what it saves is a draft with a departure time |
| LogEntry.SubmitButton | pages/LogEntry.tsx:278-280 | the submit button saves exactly when the form is draft-saveable and has an arrival time, and every log it saves is completed and carries that arrival time |
| LogEntry.SubmitIsDraftCompleted | pages/LogEntry.tsx:79-101 | whenever submitting is possible, the submitted log is the draft log with the completed status |
| LogEntry.ToggleCrew | pages/LogEntry.tsx:64-73 | ticking crew removes the id if present and appends it otherwise; no other field or id changes |
| LogEntry.ToggleCrewTwice | pages/LogEntry.tsx:64-73 | ticking a crew member twice restores which ids are selected, and the exact list when the member was unticked (a ticked one comes back at the end) |
| LogEntry.CaptainChoices | pages/LogEntry.tsx:33 | the captain picker lists exactly the users with the captain role |
| LogEntry.EngineerChoices | pages/LogEntry.tsx:34 | the engineer picker lists exactly the chief engineers |
| LogEntry.CrewChoices | pages/LogEntry.tsx:35 | the crew picker lists exactly the crew members |
| LogEntry.NameById | pages/LogEntry.tsx:89 | a stored name is the first matching user's name, or empty when no user has the id |
| LogEntry.ResolveNames | pages/LogEntry.tsx:93 | crew names are resolved position by position |
| LogEntry.HandleSave | pages/LogEntry.tsx:79-101 | saving is refused exactly when ship, captain, engineer or departure time is missing; otherwise the log carries the form's fields, resolved names, the chosen status, the memo (empty when missing) and defaults for missing values |
| LogEntry.ResaveEditedLog | pages/LogEntry.tsx:85-101 | re-saving a stored log unchanged keeps everything but the names, which are re-read from the user list |
| LogEntry.SaveIsStable | pages/LogEntry.tsx:86-100 | once a form carries an id and creation time, saving does not depend on the clock |
| Dashboard.InTransit | pages/Dashboard.tsx:13 | ships under way are exactly the logs with a departure and no arrival, each as often as it is stored, so the figure shown is the number of such logs |
| Dashboard.CompletedToday | pages/Dashboard.tsx:15 | today's completed voyages are the logs whose arrival time starts with today's date, each as often as it is stored, so the figure shown is the number of such logs |
| Dashboard.TotalPassengersToday | pages/Dashboard.tsx:17 | today's passenger total sums exactly the voyages completed today, and is non-negative when every count is |
| Dashboard.HourKey | pages/Dashboard.tsx:25 | the hour label is absent exactly when the departure time has no `T`; otherwise it ends in `:00` |
| Dashboard.HourKeyOfStamp | pages/Dashboard.tsx:25 | a departure at `date T hh:mm` is counted under `hh:00` |
| Dashboard.Classify | pages/Dashboard.tsx:26-38 | a voyage counts as A→B exactly when it leaves A for B, as B→A exactly when it leaves B for A, and under "others" otherwise |
| Dashboard.AppLogsAreOtherRoute | pages/Dashboard.tsx:26 | a log without location fields, which every log the application creates is, falls under "others" |
| Dashboard.AddTo | pages/Dashboard.tsx:32-39 | each voyage adds its passengers to the total and to exactly one route column |
| Dashboard.Record | pages/Dashboard.tsx:27-29 | existing rows keep their place and hour; the table grows exactly when the voyage's hour has no row yet, and then by one row at the end holding only this voyage |
| Dashboard.RecordLookup | pages/Dashboard.tsx:31-39 | recording a voyage adds its passengers to its own hour's row, in its route column and the total, and leaves every other hour's row unchanged |
| Dashboard.Tally | pages/Dashboard.tsx:24-25 | building the table fails exactly when some counted log has no `T` in its departure time |
| Dashboard.TallyRow | pages/Dashboard.tsx:24-40 | folding the logs in adds to each hour's row that hour's passengers per route and in total, read off the logs directly |
| Dashboard.TallyInvariants | pages/Dashboard.tsx:24-40 | the table's totals sum to the passengers counted; its hours are distinct and are the logs' hour labels; every row's columns add up to its total; every hour's row grows by exactly that hour's passengers per route and in total |
| Dashboard.SortDescCorrect | pages/Dashboard.tsx:43 | sorting the rows permutes them, keeps the totals and the hours, and orders distinct hours latest first |
| Dashboard.HourlyStats | pages/Dashboard.tsx:20-43 | the hourly table is missing exactly when a log departing today has no `T`; otherwise it has one row per hour label of today's departures, latest first; each row's A→B, B→A and other columns sum the passengers of that hour's departures on that route, its total sums all of that hour's departures, and the totals sum to today's departing passengers |
| Dashboard.ShipLoad | pages/Dashboard.tsx:214 | a ship's load is the passenger count of its first voyage under way, or zero without one |
| Dashboard.CapacitySummary | pages/Dashboard.tsx:213-215 | the capacity summary shows the first four ships with each one's current load |
| Dashboard.CapacityExample | pages/Dashboard.tsx:215 | 120 passengers on a 300-seat ship under way is a 40% load |
| LogList.Matches | pages/LogList.tsx:26-30 | a log is listed exactly when all three filters pass it: an empty filter passes everything, the departure starts with the date filter, the ship name equals the ship filter, and the captain's name contains the captain filter ignoring case |
| LogList.CaptainFilterIgnoresCase | pages/LogList.tsx:29 | captain filters differing only in letter case select the same logs |
| LogList.SortByDeparture | pages/LogList.tsx:31 | sorting by departure permutes the logs and puts the latest departure first |
| LogList.SortByDepartureStable | pages/LogList.tsx:31 | the sort is stable, as `Array.prototype.sort` is: logs with the same departure time keep their stored relative order |
| LogList.FilteredLogs | pages/LogList.tsx:25-32 | the list shows exactly the matching logs, each as often as stored, latest departure first |
| LogList.UnfilteredListIsPermutation | pages/LogList.tsx:130 | after the filters are reset, the list is a reordering of all the logs |
| LogList.ToggleOne | pages/LogList.tsx:42-44 | ticking a row deselects it if selected and appends it otherwise; no other row changes |
| LogList.ToggleAll | pages/LogList.tsx:34-40 | when the selection has as many ids as the list has rows it is cleared; otherwise it becomes the ids of all listed rows, in list order |
| LogList.ToggleOneTwice | pages/LogList.tsx:42-44 | ticking a row twice restores which ids are selected, and the exact selection when the row was unticked (a ticked one comes back at the end) |
| LogList.ToggleAllTwice | pages/LogList.tsx:34-40 | when the counts differ, "select all" ticks every shown row, and pressing it again clears the selection |
| LogList.ToggleAllComparesCountsOnly | pages/LogList.tsx:34-35 | "select all" compares counts only: a selection of other ids with the same count is shown as all ticked and is cleared |
| LogList.ExportSelection | pages/LogList.tsx:47 | the export holds exactly the selected logs, in stored order and with their multiplicities |
| LogList.ExportSelectionKeepsOrder | pages/LogList.tsx:47 | exporting works piecewise on the stored list |
| LogList.ExportRowOf | pages/LogList.tsx:48-56 | an export row's date is the longest `T`-free prefix of the departure text, and its departure column the field after the first `T` (absent exactly when there is no `T`); an open voyage shows "운항 중", otherwise the arrival column is the field after `T`; ship, captain, engineer, passengers, fuel and memo are copied unchanged |
| LogList.ExportRowOfStamps | pages/LogList.tsx:48-53 | for `date T time` stamps the row shows the departure date and both times |
| LogList.StatusLabelDecidesStatus | pages/LogList.tsx:189 | the status badge text determines the status |
| LogList.TransitRowIsInTransit | pages/LogList.tsx:159 | a row marked under way is a dashboard voyage under way whenever it has a departure time |
| LogList.PrintSet | pages/LogList.tsx:69 | the print sheet lists exactly the logs departing on the print date, each as often as it is stored |
| LogList.PrintCount | pages/LogList.tsx:227 | the print count is the number of logs departing on the print date, counted one by one; it equals the number of all logs exactly when every log departs on that date |
| LogList.PrintPassengers | pages/LogList.tsx:292 | the sheet's passenger total sums the logs departing on the print date |
| LogList.PrintSheetMatchesHourlyTable | pages/LogList.tsx:69 | the print sheet lists the dashboard's departures for that day, and its passenger total equals the hourly table's grand total |
| LogList.PrintArrival | pages/LogList.tsx:279 | an open voyage prints "-"; a recorded arrival prints the field after its first `T`, and nothing when it has no `T` |
| LogList.PrintArrivalOfStamp | pages/LogList.tsx:279 | a recorded `date T time` arrival prints its time, the same text the export row shows |
| UserManagement.SaveUserForm | pages/UserManagement.tsx:21-33 | the user editor refuses a missing name or phone and changes nothing then; otherwise it saves the form with a fresh `u-` id, role crew and today's join date as defaults, then closes the editor and resets it to the blank form |
| UserManagement.EditAndSaveUserRoundTrip | pages/UserManagement.tsx:16-33 | editing a user and saving unchanged yields that user, who is then found under its id |
| UserManagement.NewUserFromBlankForm | pages/UserManagement.tsx:14-28 | a new user from the blank form is crew, joins today and has an empty chat id |
| UserManagement.BlankUserFormRejected | pages/UserManagement.tsx:22 | the blank user form cannot be saved |
| ShipManagement.SaveShipForm | pages/ShipManagement.tsx:21-30 | the ship editor refuses a missing name or a zero or missing capacity; otherwise it saves with a fresh `s-` id, then closes the editor and resets it to the blank form |
| ShipManagement.EditAndSaveShipRoundTrip | pages/ShipManagement.tsx:16-30 | editing a ship and saving unchanged yields that ship, which is then found under its id |
| ShipManagement.NegativeCapacityAccepted | pages/ShipManagement.tsx:22 | a negative capacity passes the check and is saved |
| ShipManagement.BlankShipFormRejected | pages/ShipManagement.tsx:14-22 | the blank ship form, whose capacity is 0, cannot be saved |
| Telegram.UsersWithTelegram | pages/TelegramSettings.tsx:19 | the recipient list is exactly the users with a non-empty chat id |
| Telegram.ToggleRecipient | pages/TelegramSettings.tsx:21-23 | ticking a recipient deselects it if selected and appends it otherwise; nothing else on the page changes |
| Telegram.ToggleRecipientTwice | pages/TelegramSettings.tsx:21-23 | ticking a recipient twice restores which ids are selected, and the exact selection when the recipient was unticked (a ticked one comes back at the end) |
| Telegram.SaveConfig | pages/TelegramSettings.tsx:25-26 | saving hands over the token and the selected recipients as they stand |
| Telegram.SaveConfigRoundTrip | pages/TelegramSettings.tsx:13-26 | opening the page and saving stores the loaded configuration, and saved edits come back on reopening |
| Telegram.Send | pages/TelegramSettings.tsx:30-33 | without a message or recipients a send does nothing; otherwise the status becomes loading, which disables the button, the success callback is scheduled, and nothing else changes |
| Telegram.Step | pages/TelegramSettings.tsx:21-39 | a press while the button is disabled does nothing; only the token field changes the token and only a recipient tick changes the selection, which it toggles; no event produces the error status |
| Telegram.Run | pages/TelegramSettings.tsx:17-39 | no run of events reaches the error status; without a token edit the token is unchanged, without ticks the selection is unchanged, and a recipient never ticked keeps its membership |
| Telegram.SendLifecycle | pages/TelegramSettings.tsx:30-39 | a send goes loading, then success with the draft cleared, then idle with nothing pending |
| Telegram.StaleIdleDuringSecondSend | pages/TelegramSettings.tsx:35-39 | a second send during the success banner can be returned to idle by the first send's timer, re-enabling the button mid-send |
| Layout.Menu | components/Layout.tsx:22-29 | a role's menu is exactly the declared entries listing that role |
| Layout.MenuIsExpected | components/Layout.tsx:22-29 | the administrator sees all six entries in order, a captain the form and the list, a chief engineer the form, crew nothing |
| Layout.AdminOnlyViews | components/Layout.tsx:23-28 | the dashboard and the three management pages appear exactly for the administrator |
| Layout.LandingViewInMenu | components/Layout.tsx:29 | the page a user lands on is in their menu exactly unless they are crew |
| Seed.SeedLogIdsDistinct | constants.ts:28 | the generated ids are `log-1` to `log-20`, all distinct |
| Seed.SeedCompletedIffArrival | constants.ts:26-41 | a generated voyage is completed exactly when its number is not a multiple of three, and exactly then has an arrival time |
| Seed.SeedPeopleMatchUsers | constants.ts:4-33 | every person a generated log names is a seeded user with that name and the fitting role |
| Seed.SeedNamesSurviveResave | constants.ts:30-35 | re-saving a generated log through the form keeps its names |
| Seed.SeedShipsExist | constants.ts:12-29 | every generated voyage sails a seeded ship |
| Seed.SeedRanges | constants.ts:38-39 | passenger counts lie in 50..249 and fuel levels in 57..85 |
| Seed.SeedDepartureHour | constants.ts:36 | every generated voyage falls in the dashboard's 09:00 row |
| Seed.SeedArrival | constants.ts:36-37 | completed generated voyages arrive at 10:30 on their departure date |
| Seed.SeedReferenceData | constants.ts:4-17 | seeded user ids are distinct and ship capacities positive |
| Seed.GenerateDummyLogs | constants.ts:20-46 | the generator yields twenty logs numbered 1 to 20 in order; log `k` carries the `k`-th random draw plus 50 passengers, in 50..249, and the `k`-th clock reading as its creation time |

## Left out

- The storage and messaging services, `services/db.ts`, `services/weather.ts` and `server.ts`, are not part of this model. Storage is modelled as a `Store` value that the sync writes to.
- The initial load at App.tsx:24-29 hands the state setters the Promises returned by the asynchronous getters of `services/db.ts` without awaiting them. As written the state then holds Promises rather than lists, and the login screen's `users.map` (App.tsx:113) is called on a Promise. The model assumes an awaited load instead: one step that has completed, or not yet, as `loaded` says.
- Rendering, icons, `alert` dialogs and `console.log` are left out. The alert text becomes the `Alert` value.
- Navigation state outside login routing and saving is left out. This covers `editingLogId`, clicking menu entries and the mobile menu in Layout.tsx:31-34.
- The spreadsheet file writing (LogList.tsx:59-62) and `window.print` are I/O. The rows handed to them are modelled.
- The form's "now" buttons (LogEntry.tsx:58-62) depend on the clock and time zone. The clock readings are parameters everywhere.
- The dashboard's current-hour highlight (Dashboard.tsx:47) depends on the clock.
- Dashboard.ShipLoad: the load is the integer passenger count. The floating-point percentage, its rounding and the red/blue colouring (Dashboard.tsx:215-225) are not modelled; `CapacityExample` states the percentage relation for one case.
- `Math.random()` in the seed generator becomes the `draws` parameter. The two timer durations, 1.5 s and 3 s, are not modelled: the callbacks fire in any order.
- Text.Lower: lower-cases ASCII letters only, whereas `toLowerCase` maps all of Unicode. The Korean names the application stores have no case.
- Text.LexLess: `localeCompare` is modelled as code-point order. For the ISO-style timestamps and hour labels it sorts, both agree except for locale collation of unusual characters.
- Numeric fields are integers. `Number(x)` of fractional or non-numeric text (NaN) is not modelled beyond "missing means 0".
- On the Telegram page, the quick templates (TelegramSettings.tsx:156) are modelled as typing a message (`TypeMessage`). A recipient tick is modelled for any id, not only for the users the picker lists (line 100). The token visibility toggle and the simulated connection test (line 86) only affect display.

## Findings

| source | as written | input that shows it | evidently intended | confidence | as-written member | corrected member |
|---|---|---|---|---|---|---|
| App.tsx:32-35 | the sync effects also run on the first render, with the initial empty state, before any load at lines 24-29 (assumed awaited) could fill it | any stored logs or configuration: the first render writes `logs = []` and an empty configuration over them | write to storage only after the stored data has been loaded | medium, not executed | App.MountOverwritesStoredLogs | App.SyncAfterLoadFixesBoth |
| App.tsx:32-33 | users and ships are written only when the list is non-empty | storage holds one user `u`; deleting `u` leaves storage holding `[u]` | a deletion that empties the list is written too | medium, not executed | App.LastUserDeletionNotPersisted | App.SyncAfterLoad |
