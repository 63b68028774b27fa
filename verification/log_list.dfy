/** The voyage-log list page: the three filters, the newest-first ordering,
    row selection for export, the export rows, and the daily print sheet
    with its totals. */
module LogList {
  import opened Types
  import opened Text
  import opened Collections
  import Dashboard

  /** The filter inputs; an empty string means "no filter". */
  datatype Filters = Filters(date: string, ship: string, captain: string)

  /** The state the reset button restores. */
  const NoFilters: Filters := Filters("", "", "")

  /** A log passes when each non-empty filter accepts it: the departure time
      starts with the date filter, the ship name equals the ship filter, and
      the captain filter occurs in the captain's name ignoring case. */
  function Matches(l: OperationLog, f: Filters): (b: bool)
    ensures f == NoFilters ==> b
    ensures b ==> StartsWith(l.departureTime, f.date)
    ensures b && f.ship != "" ==> l.shipName == f.ship
    ensures f.date == "" && f.captain == "" ==> (b <==> f.ship == "" || l.shipName == f.ship)
    ensures b && f.captain != "" ==> Contains(Lower(l.captainName), Lower(f.captain))
    ensures
      && (f.date == "" || StartsWith(l.departureTime, f.date))
      && (f.ship == "" || l.shipName == f.ship)
      && (f.captain == "" || Contains(Lower(l.captainName), Lower(f.captain)))
      ==> b
  {
    && (f.date == "" || StartsWith(l.departureTime, f.date))
    && (f.ship == "" || l.shipName == f.ship)
    && (f.captain == "" || Contains(Lower(l.captainName), Lower(f.captain)))
  }

  /** The captain filter is case-insensitive: an upper-case and a lower-case
      spelling of the same query select the same logs. */
  lemma CaptainFilterIgnoresCase(l: OperationLog, f: Filters, g: Filters)
    requires f.date == g.date && f.ship == g.ship
    requires f.captain != "" && g.captain != "" && Lower(f.captain) == Lower(g.captain)
    ensures Matches(l, f) <==> Matches(l, g)
  {
  }

  /** Departure times in non-increasing order: the newest voyage first. */
  predicate NewestFirst(s: seq<OperationLog>)
  {
    forall i, j :: 0 <= i < j < |s| ==> !LexLess(s[i].departureTime, s[j].departureTime)
  }

  /** "Not earlier than" is transitive. */
  lemma NotLessTransitive(a: string, b: string, c: string)
    requires !LexLess(a, b) && !LexLess(b, c)
    ensures !LexLess(a, c)
  {
    if a != b {
      LexLessTotal(a, b);
      if b != c {
        LexLessTotal(b, c);
        LexLessTransitive(c, b, a);
        LexLessAsymmetric(c, a);
      }
    }
  }

  /** Inserts a log before the first one that does not depart later, so a
      log stays ahead of the equal ones that followed it (a stable sort). */
  function InsertByDeparture(l: OperationLog, s: seq<OperationLog>): seq<OperationLog>
  {
    if |s| == 0 || !LexLess(l.departureTime, s[0].departureTime) then [l] + s
    else [s[0]] + InsertByDeparture(l, s[1..])
  }


  lemma {:induction false} InsertByDeparturePermutes(l: OperationLog, s: seq<OperationLog>)
    ensures multiset(InsertByDeparture(l, s)) == multiset(s) + multiset{l}
  {
    if |s| > 0 && LexLess(l.departureTime, s[0].departureTime) {
      assert s == [s[0]] + s[1..];
      InsertByDeparturePermutes(l, s[1..]);
    }
  }

  /** Putting a log that departs no earlier than the head in front keeps
      the order. */
  lemma InsertAtFrontSorted(l: OperationLog, s: seq<OperationLog>)
    requires NewestFirst(s)
    requires |s| == 0 || !LexLess(l.departureTime, s[0].departureTime)
    ensures NewestFirst([l] + s)
  {
    var r := [l] + s;
    forall i, j | 0 <= i < j < |r|
      ensures !LexLess(r[i].departureTime, r[j].departureTime)
    {
      if i == 0 {
        assert r[j] == s[j - 1];
        if j > 1 {
          NotLessTransitive(l.departureTime, s[0].departureTime, s[j - 1].departureTime);
        }
      } else {
        assert r[i] == s[i - 1] && r[j] == s[j - 1];
      }
    }
  }

  /** Putting the head back in front of a sorted tail whose elements all
      depart no later than it keeps the order. */
  lemma ConsSorted(h: OperationLog, rest: seq<OperationLog>)
    requires NewestFirst(rest)
    requires forall x :: x in rest ==> !LexLess(h.departureTime, x.departureTime)
    ensures NewestFirst([h] + rest)
  {
    var r := [h] + rest;
    forall i, j | 0 <= i < j < |r|
      ensures !LexLess(r[i].departureTime, r[j].departureTime)
    {
      if i == 0 {
        assert r[j] == rest[j - 1];
      } else {
        assert r[i] == rest[i - 1] && r[j] == rest[j - 1];
      }
    }
  }

  lemma {:induction false} InsertByDepartureSorted(l: OperationLog, s: seq<OperationLog>)
    requires NewestFirst(s)
    ensures NewestFirst(InsertByDeparture(l, s))
  {
    if |s| == 0 || !LexLess(l.departureTime, s[0].departureTime) {
      InsertAtFrontSorted(l, s);
    } else {
      var tail := s[1..];
      assert NewestFirst(tail) by {
        forall i, j | 0 <= i < j < |tail|
          ensures !LexLess(tail[i].departureTime, tail[j].departureTime)
        {
          assert tail[i] == s[i + 1] && tail[j] == s[j + 1];
        }
      }
      InsertByDepartureSorted(l, tail);
      InsertByDeparturePermutes(l, tail);
      LexLessAsymmetric(l.departureTime, s[0].departureTime);
      var rest := InsertByDeparture(l, tail);
      forall x | x in rest
        ensures !LexLess(s[0].departureTime, x.departureTime)
      {
        assert x in multiset(rest);
        if x != l {
          assert x in multiset(tail);
          var k :| 0 <= k < |tail| && tail[k] == x;
          assert s[k + 1] == x;
        }
      }
      ConsSorted(s[0], rest);
    }
  }

  /** Stable insertion sort, latest departure first: a reordering of its
      input in newest-first order. */
  function SortByDeparture(s: seq<OperationLog>): (r: seq<OperationLog>)
    ensures multiset(r) == multiset(s)
    ensures NewestFirst(r)
  {
    if |s| == 0 then []
    else
      var rest := SortByDeparture(s[1..]);
      assert s == [s[0]] + s[1..];
      InsertByDeparturePermutes(s[0], rest);
      InsertByDepartureSorted(s[0], rest);
      InsertByDeparture(s[0], rest)
  }

  /** The logs departing at exactly `d`. */
  function DepartsAt(d: string): OperationLog -> bool
  {
    (l: OperationLog) => l.departureTime == d
  }

  /** Inserting a log keeps, among the logs of any one departure time, the
      inserted log ahead of those that followed it. */
  lemma {:induction false} InsertByDepartureStable(l: OperationLog, t: seq<OperationLog>, d: string)
    ensures Filter(InsertByDeparture(l, t), DepartsAt(d)) == Filter([l] + t, DepartsAt(d))
  {
    if |t| > 0 && LexLess(l.departureTime, t[0].departureTime) {
      InsertByDepartureStable(l, t[1..], d);
      LexLessIrreflexive(l.departureTime);
      var ins := [t[0]] + InsertByDeparture(l, t[1..]);
      assert ins[1..] == InsertByDeparture(l, t[1..]);
      assert ([l] + t)[1..] == t;
      assert ([l] + t[1..])[1..] == t[1..];
      assert t == [t[0]] + t[1..];
    }
  }

  /** The sort is stable: logs with the same departure time keep their
      relative order. */
  lemma {:induction false} SortByDepartureStable(s: seq<OperationLog>, d: string)
    ensures Filter(SortByDeparture(s), DepartsAt(d)) == Filter(s, DepartsAt(d))
  {
    if |s| > 0 {
      var rest := SortByDeparture(s[1..]);
      SortByDepartureStable(s[1..], d);
      InsertByDepartureStable(s[0], rest, d);
      assert ([s[0]] + rest)[1..] == rest;
    }
  }

  /** The listed logs: a permutation of the logs passing the filters (each
      occurrence kept, the others dropped) in newest-first order. */
  function FilteredLogs(logs: seq<OperationLog>, f: Filters): (r: seq<OperationLog>)
    ensures forall l :: multiset(r)[l] == if Matches(l, f) then multiset(logs)[l] else 0
    ensures forall l :: l in r <==> l in logs && Matches(l, f)
    ensures NewestFirst(r)
  {
    var kept := Filter(logs, l => Matches(l, f));
    var r := SortByDeparture(kept);
    assert forall l :: l in r <==> l in multiset(r);
    assert forall l :: l in kept <==> l in multiset(kept);
    r
  }

  /** With the filters reset the list shows every stored log. */
  lemma {:induction false} UnfilteredListIsPermutation(logs: seq<OperationLog>)
    ensures multiset(FilteredLogs(logs, NoFilters)) == multiset(logs)
  {
    var r := FilteredLogs(logs, NoFilters);
    assert forall l :: multiset(r)[l] == multiset(logs)[l];
  }

  /** The row checkbox: deselects a selected id or appends an unselected one. */
  function ToggleOne(selected: seq<string>, id: string): (r: seq<string>)
    ensures id in selected ==> id !in r
    ensures id !in selected ==> r == selected + [id]
    ensures forall y :: y != id ==> (y in r <==> y in selected)
  {
    Toggle(selected, id)
  }

  /** Ticking a row twice restores which ids are selected, and restores the
      selection exactly when the row was not selected before. */
  lemma ToggleOneTwice(selected: seq<string>, id: string)
    ensures forall y :: y in ToggleOne(ToggleOne(selected, id), id) <==> y in selected
    ensures id !in selected ==> ToggleOne(ToggleOne(selected, id), id) == selected
  {
    ToggleTwiceMembership(selected, id);
    if id !in selected {
      ToggleTwiceRestores(selected, id);
    }
  }

  function IdsOf(logs: seq<OperationLog>): (r: seq<string>)
    ensures |r| == |logs|
    ensures forall i :: 0 <= i < |logs| ==> r[i] == logs[i].id
  {
    seq(|logs|, i requires 0 <= i < |logs| => logs[i].id)
  }

  /** The header checkbox: clears the selection when it has as many ids as
      the list has rows, otherwise selects every listed row in list order. */
  function ToggleAll(selected: seq<string>, filtered: seq<OperationLog>): (r: seq<string>)
    ensures |selected| == |filtered| ==> r == []
    ensures |selected| != |filtered| ==>
      |r| == |filtered| && forall i :: 0 <= i < |r| ==> r[i] == filtered[i].id
  {
    if |selected| == |filtered| then [] else IdsOf(filtered)
  }

  /** The header box shows as ticked. */
  predicate AllTicked(selected: seq<string>, filtered: seq<OperationLog>)
  {
    |selected| == |filtered| && |filtered| > 0
  }

  /** Pressing the header box on a non-empty list alternates between
      everything and nothing: from any partial selection, one press ticks
      every row and the next clears it again. */
  lemma ToggleAllTwice(selected: seq<string>, filtered: seq<OperationLog>)
    requires |filtered| > 0 && |selected| != |filtered|
    ensures AllTicked(ToggleAll(selected, filtered), filtered)
    ensures forall l :: l in filtered ==> l.id in ToggleAll(selected, filtered)
    ensures ToggleAll(ToggleAll(selected, filtered), filtered) == []
  {
    var r := ToggleAll(selected, filtered);
    forall l | l in filtered
      ensures l.id in r
    {
      var i :| 0 <= i < |filtered| && filtered[i] == l;
      assert r[i] == l.id;
    }
  }

  /** The header box compares counts only: a selection of other rows with
      the same size as the list also reads as "all ticked" and is cleared. */
  lemma ToggleAllComparesCountsOnly(selected: seq<string>, filtered: seq<OperationLog>)
    requires |selected| == |filtered| > 0
    requires forall l :: l in filtered ==> l.id !in selected
    ensures AllTicked(selected, filtered)
    ensures ToggleAll(selected, filtered) == []
  {
  }

  predicate Selected(l: OperationLog, selected: seq<string>)
  {
    l.id in selected
  }

  /** The logs exported: the selected ones, in stored order, whatever the
      current filters hide. */
  function ExportSelection(logs: seq<OperationLog>, selected: seq<string>): (r: seq<OperationLog>)
    ensures forall l :: l in r <==> l in logs && l.id in selected
    ensures forall l :: multiset(r)[l] == if l.id in selected then multiset(logs)[l] else 0
    ensures |r| == |logs| <==> forall l :: l in logs ==> l.id in selected
  {
    Filter(logs, l => Selected(l, selected))
  }

  /** Export keeps the stored order: it works piecewise on a split list. */
  lemma ExportSelectionKeepsOrder(a: seq<OperationLog>, b: seq<OperationLog>, selected: seq<string>)
    ensures ExportSelection(a + b, selected) == ExportSelection(a, selected) + ExportSelection(b, selected)
  {
    FilterConcat(a, b, l => Selected(l, selected));
  }

  /** The label of a row still under way. */
  const UnderWay: string := "운항 중"

  /** One spreadsheet row. A time column is `None` where the stored text has
      no 'T' (the page's expression yields `undefined` there). */
  datatype ExportRow = ExportRow(
    date: string,
    shipName: string,
    captainName: string,
    engineerName: string,
    departure: Option<string>,
    arrival: Option<string>,
    passengerCount: int,
    fuelLevel: int,
    memo: string)

  function ExportRowOf(l: OperationLog): (r: ExportRow)
    ensures l.arrivalTime == "" ==> r.arrival == Some(UnderWay)
    ensures l.arrivalTime != "" ==> r.arrival == SecondField(l.arrivalTime, 'T')
    ensures StartsWith(l.departureTime, r.date) && 'T' !in r.date
    ensures |r.date| < |l.departureTime| ==> l.departureTime[|r.date|] == 'T'
    ensures r.date == Before(l.departureTime, 'T')
    ensures r.departure.None? <==> 'T' !in l.departureTime
    ensures r.departure == SecondField(l.departureTime, 'T')
    ensures r.shipName == l.shipName && r.captainName == l.captainName && r.engineerName == l.engineerName
    ensures r.passengerCount == l.passengerCount && r.fuelLevel == l.fuelLevel && r.memo == l.memo
  {
    ExportRow(
      Before(l.departureTime, 'T'),
      l.shipName, l.captainName, l.engineerName,
      SecondField(l.departureTime, 'T'),
      if l.arrivalTime != "" then SecondField(l.arrivalTime, 'T') else Some(UnderWay),
      l.passengerCount, l.fuelLevel, l.memo)
  }

  /** For a stored `date T time` pair the row splits it back into its two
      halves, and an arrival on the same pattern shows its time. */
  lemma ExportRowOfStamps(l: OperationLog, date: string, dep: string, arrDate: string, arr: string)
    requires 'T' !in date && 'T' !in dep && 'T' !in arrDate && 'T' !in arr
    requires l.departureTime == date + "T" + dep && l.arrivalTime == arrDate + "T" + arr
    ensures ExportRowOf(l).date == date
    ensures ExportRowOf(l).departure == Some(dep)
    ensures ExportRowOf(l).arrival == Some(arr)
  {
    SplitStamp(date, dep);
    SplitStamp(arrDate, arr);
  }

  function ExportRows(logs: seq<OperationLog>, selected: seq<string>): (r: seq<ExportRow>)
    ensures |r| == |ExportSelection(logs, selected)|
    ensures forall i :: 0 <= i < |r| ==> r[i] == ExportRowOf(ExportSelection(logs, selected)[i])
  {
    var chosen := ExportSelection(logs, selected);
    seq(|chosen|, i requires 0 <= i < |chosen| => ExportRowOf(chosen[i]))
  }

  /** A row is drawn as under way exactly when it has no arrival time. */
  predicate IsTransitRow(l: OperationLog)
  {
    l.arrivalTime == ""
  }

  /** The status badge. */
  function StatusLabel(s: LogStatus): (t: string)
    ensures s.Completed? <==> t == "제출 완료"
    ensures s.Draft? <==> t == "임시 저장"
  {
    if s.Completed? then "제출 완료" else "임시 저장"
  }

  /** The badge tells the two statuses apart, and nothing but the status
      decides it: two logs show the same badge iff their statuses agree. */
  lemma StatusLabelDecidesStatus(a: OperationLog, b: OperationLog)
    ensures StatusLabel(a.status) == StatusLabel(b.status) <==> a.status == b.status
  {
  }

  /** The list row's under-way marker and the dashboard's in-transit set
      agree on every log that has departed. */
  lemma TransitRowIsInTransit(l: OperationLog)
    requires l.departureTime != ""
    ensures IsTransitRow(l) <==> Dashboard.IsInTransit(l)
  {
  }

  predicate DepartsOnPrintDate(l: OperationLog, printDate: string)
  {
    StartsWith(l.departureTime, printDate)
  }

  /** The logs on the daily print sheet: those departing on `printDate`. */
  function PrintSet(logs: seq<OperationLog>, printDate: string): (r: seq<OperationLog>)
    ensures forall l :: l in r <==> l in logs && StartsWith(l.departureTime, printDate)
    ensures forall l :: multiset(r)[l] == if StartsWith(l.departureTime, printDate) then multiset(logs)[l] else 0
  {
    Filter(logs, l => DepartsOnPrintDate(l, printDate))
  }

  /** The sheet's "voyages today" figure. */
  function PrintCount(logs: seq<OperationLog>, printDate: string): (n: nat)
    ensures n <= |logs|
    ensures n == |logs| <==> forall l :: l in logs ==> StartsWith(l.departureTime, printDate)
    ensures n == CountWhere(logs, l => DepartsOnPrintDate(l, printDate))
  {
    FilterLength(logs, l => DepartsOnPrintDate(l, printDate));
    |PrintSet(logs, printDate)|
  }

  /** The sheet's "passengers today" figure: every log counts its passengers
      exactly when it departs on the print date. */
  function PrintPassengers(logs: seq<OperationLog>, printDate: string): (n: int)
    ensures n == SumPassengersWhere(logs, l => DepartsOnPrintDate(l, printDate))
  {
    SumPassengersOfFilter(logs, l => DepartsOnPrintDate(l, printDate));
    SumPassengers(PrintSet(logs, printDate))
  }

  /** The sheet for a date is the set of voyages the dashboard tabulates by
      hour for that date, so the sheet's passenger figure equals the sum of
      the hourly table whenever the table can be built. */
  lemma PrintSheetMatchesHourlyTable(logs: seq<OperationLog>, day: string)
    ensures PrintSet(logs, day) == Dashboard.DepartingToday(logs, day)
    ensures Dashboard.HourlyStats(logs, day).Some? ==>
      Dashboard.SumTotals(Dashboard.HourlyStats(logs, day).value) == PrintPassengers(logs, day)
  {
    FilterAgrees(logs, l => DepartsOnPrintDate(l, day), l => Dashboard.DepartsOn(l, day));
  }

  /** The arrival column of the print sheet: "-" while under way, else the
      field after the first 'T' of the arrival time (`None` for the
      `undefined` of an arrival without one). A recorded arrival such as
      `xT-` also prints "-", so the dash alone does not mean under way. */
  function PrintArrival(l: OperationLog): (r: Option<string>)
    ensures l.arrivalTime == "" ==> r == Some("-")
    ensures l.arrivalTime != "" ==> (r.Some? <==> 'T' in l.arrivalTime)
    ensures l.arrivalTime != "" ==> r == SecondField(l.arrivalTime, 'T')
  {
    if l.arrivalTime != "" then SecondField(l.arrivalTime, 'T') else Some("-")
  }

  /** A recorded `date T time` arrival prints its time, and the printed
      arrival is the one the export row shows. */
  lemma PrintArrivalOfStamp(l: OperationLog, date: string, time: string)
    requires 'T' !in date && 'T' !in time
    requires l.arrivalTime == date + "T" + time
    ensures PrintArrival(l) == Some(time)
    ensures PrintArrival(l) == ExportRowOf(l).arrival
  {
    SplitStamp(date, time);
  }
}
