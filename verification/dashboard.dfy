/** The dashboard's derived figures: ships in transit, today's completed
    voyages and their passengers, the per-hour passenger table split by
    route, and the per-ship load shown in the capacity summary. All of them
    are pure functions of the log list and today's date string. */
module Dashboard {
  import opened Types
  import opened Text
  import opened Collections

  /** A voyage has departed and not yet arrived. */
  predicate IsInTransit(l: OperationLog)
  {
    l.departureTime != "" && l.arrivalTime == ""
  }

  /** The in-transit logs, in their stored order. */
  function InTransit(logs: seq<OperationLog>): (r: seq<OperationLog>)
    ensures forall l :: l in r <==> l in logs && l.departureTime != "" && l.arrivalTime == ""
    ensures forall l :: IsInTransit(l) ==> multiset(r)[l] == multiset(logs)[l]
    ensures |r| == CountWhere(logs, IsInTransit)
  {
    FilterLength(logs, IsInTransit);
    Filter(logs, IsInTransit)
  }

  /** `InTransit` keeps relative order: it works piecewise on a split list. */
  lemma InTransitConcat(a: seq<OperationLog>, b: seq<OperationLog>)
    ensures InTransit(a + b) == InTransit(a) + InTransit(b)
  {
    FilterConcat(a, b, IsInTransit);
  }

  predicate CompletedOn(l: OperationLog, today: string)
  {
    l.arrivalTime != "" && StartsWith(l.arrivalTime, today)
  }

  /** Logs whose arrival time lies on `today`. */
  function CompletedToday(logs: seq<OperationLog>, today: string): (r: seq<OperationLog>)
    ensures forall l :: l in r <==> l in logs && l.arrivalTime != "" && StartsWith(l.arrivalTime, today)
    ensures forall l :: multiset(r)[l] == if CompletedOn(l, today) then multiset(logs)[l] else 0
    ensures |r| == CountWhere(logs, l => CompletedOn(l, today))
  {
    FilterLength(logs, l => CompletedOn(l, today));
    Filter(logs, l => CompletedOn(l, today))
  }

  /** Passengers of the voyages completed today: every log counts its
      passengers exactly when it arrived today. */
  function TotalPassengersToday(logs: seq<OperationLog>, today: string): (r: int)
    ensures r == SumPassengersWhere(logs, l => CompletedOn(l, today))
    ensures (forall l :: l in logs ==> l.passengerCount >= 0) ==> r >= 0
  {
    SumPassengersOfFilter(logs, l => CompletedOn(l, today));
    NonNegativeSum(CompletedToday(logs, today));
    SumPassengers(CompletedToday(logs, today))
  }

  lemma {:induction false} NonNegativeSum(logs: seq<OperationLog>)
    ensures (forall l :: l in logs ==> l.passengerCount >= 0) ==> SumPassengers(logs) >= 0
  {
    if |logs| > 0 {
      NonNegativeSum(logs[1..]);
      assert forall l :: l in logs[1..] ==> l in logs;
    }
  }

  predicate DepartsOn(l: OperationLog, today: string)
  {
    StartsWith(l.departureTime, today)
  }

  /** The logs the hourly table is built from. */
  function DepartingToday(logs: seq<OperationLog>, today: string): (r: seq<OperationLog>)
    ensures forall l :: l in r <==> l in logs && StartsWith(l.departureTime, today)
  {
    Filter(logs, l => DepartsOn(l, today))
  }

  /** `departureTime.split('T')[1].split(':')[0] + ':00'`. `None` when the
      time has no 'T', where the page's expression throws. */
  function HourKey(departureTime: string): (r: Option<string>)
    ensures r.None? <==> 'T' !in departureTime
    ensures r.Some? ==> |r.value| >= 3 && r.value[|r.value| - 3..] == ":00"
    ensures r.Some? ==> ':' !in r.value[..|r.value| - 3] && 'T' !in r.value[..|r.value| - 3]
  {
    match SecondField(departureTime, 'T')
    case None => None
    case Some(afterT) =>
      var h := Before(afterT, ':');
      assert (h + ":00")[..|h + ":00"| - 3] == h;
      Some(h + ":00")
  }

  /** For a local timestamp `date T hh : rest`, the key is `hh:00`. */
  lemma HourKeyOfStamp(date: string, hh: string, rest: string)
    requires 'T' !in date && 'T' !in hh && ':' !in hh
    ensures HourKey(date + "T" + hh + ":" + rest) == Some(hh + ":00")
  {
    var s := date + "T" + hh + ":" + rest;
    assert s == date + ['T'] + (hh + ":" + rest);
    BeforeSeparator(date, hh + ":" + rest, 'T');
    assert AfterFirst(s, 'T') == Some(hh + ":" + rest);
    BeforeConcat(hh + ":", rest, 'T');
    assert hh + ":" + rest == hh + (":" + rest);
    BeforeConcat(hh, ":", 'T');
    var f := Before(hh + ":" + rest, 'T');
    assert f == hh + ":" + Before(rest, 'T');
    BeforeSeparator(hh, Before(rest, 'T'), ':');
  }

  /** How a missing location renders inside a template string. */
  function LocationText(o: Option<string>): string
  {
    match o
    case None => "undefined"
    case Some(s) => s
  }

  /** The route text `${departureLocation}->${arrivalLocation}`. */
  function Route(l: OperationLog): string
  {
    LocationText(l.departureLocation) + "->" + LocationText(l.arrivalLocation)
  }

  datatype RouteClass = AtoB | BtoA | OtherRoute

  lemma RouteTextIs(d: string, a: string, x: char, y: char)
    requires x != '-' && x != '>' && y != '-' && y != '>'
    ensures d + "->" + a == [x, '-', '>', y] <==> d == [x] && a == [y]
  {
    var r := d + "->" + a;
    if r == [x, '-', '>', y] {
      assert |d| + |a| == 2;
      assert r[|d|] == '-' && r[|d| + 1] == '>';
      assert |d| == 1;
      assert r[0] == d[0] && r[3..] == a;
    }
  }

  /** The route bucket: "A->B" exactly for a voyage from A to B, "B->A" for
      one from B to A, everything else (missing locations included) in the
      third bucket. */
  function Classify(l: OperationLog): (c: RouteClass)
    ensures c == AtoB <==> l.departureLocation == Some("A") && l.arrivalLocation == Some("B")
    ensures c == BtoA <==> l.departureLocation == Some("B") && l.arrivalLocation == Some("A")
  {
    RouteTextIs(LocationText(l.departureLocation), LocationText(l.arrivalLocation), 'A', 'B');
    RouteTextIs(LocationText(l.departureLocation), LocationText(l.arrivalLocation), 'B', 'A');
    if Route(l) == "A->B" then AtoB
    else if Route(l) == "B->A" then BtoA
    else OtherRoute
  }

  /** Logs built by the application carry no locations, so they all land in
      the third bucket. */
  lemma AppLogsAreOtherRoute(l: OperationLog)
    requires l.departureLocation.None? || l.arrivalLocation.None?
    ensures Classify(l) == OtherRoute
  {
  }

  datatype HourStat = HourStat(ab: int, ba: int, others: int, total: int)

  predicate Balanced(s: HourStat)
  {
    s.total == s.ab + s.ba + s.others
  }

  /** Adds one voyage's passengers: to exactly one route bucket, and to the
      hour's total. */
  function AddTo(s: HourStat, c: RouteClass, n: int): (t: HourStat)
    ensures t.total == s.total + n
    ensures t.ab + t.ba + t.others == s.ab + s.ba + s.others + n
    ensures c == AtoB ==> t == s.(ab := s.ab + n, total := s.total + n)
    ensures c == BtoA ==> t == s.(ba := s.ba + n, total := s.total + n)
    ensures c == OtherRoute ==> t == s.(others := s.others + n, total := s.total + n)
  {
    match c
    case AtoB => s.(ab := s.ab + n, total := s.total + n)
    case BtoA => s.(ba := s.ba + n, total := s.total + n)
    case OtherRoute => s.(others := s.others + n, total := s.total + n)
  }

  /** The row of an hour nobody departed in. */
  const ZeroStat: HourStat := HourStat(0, 0, 0, 0)

  /** Rows add column by column. */
  function Plus(s: HourStat, t: HourStat): HourStat
  {
    HourStat(s.ab + t.ab, s.ba + t.ba, s.others + t.others, s.total + t.total)
  }

  lemma PlusZero(s: HourStat)
    ensures Plus(ZeroStat, s) == s && Plus(s, ZeroStat) == s
  {
  }

  lemma PlusAssoc(a: HourStat, b: HourStat, c: HourStat)
    ensures Plus(Plus(a, b), c) == Plus(a, Plus(b, c))
  {
  }

  /** Adding a voyage to a row is adding the row that voyage alone makes. */
  lemma AddToIsPlus(s: HourStat, c: RouteClass, n: int)
    ensures AddTo(s, c, n) == Plus(s, AddTo(ZeroStat, c, n))
  {
  }

  datatype HourEntry = HourEntry(hour: string, stat: HourStat)

  function EntryTotal(e: HourEntry): int { e.stat.total }

  function SumTotals(es: seq<HourEntry>): int
  {
    SumOf(es, EntryTotal)
  }

  lemma SumTotalsCons(e: HourEntry, es: seq<HourEntry>)
    ensures SumTotals([e] + es) == e.stat.total + SumTotals(es)
  {
    assert ([e] + es)[1..] == es;
  }

  predicate DistinctHours(es: seq<HourEntry>)
  {
    forall i, j :: 0 <= i < j < |es| ==> es[i].hour != es[j].hour
  }

  predicate AllBalanced(es: seq<HourEntry>)
  {
    forall e :: e in es ==> Balanced(e.stat)
  }

  function HourSet(es: seq<HourEntry>): set<string>
  {
    set e | e in es :: e.hour
  }

  /** Adds a voyage to the table: to the entry for its hour, or to a new
      entry appended at the end (the insertion order of the page's record). */
  function Record(es: seq<HourEntry>, h: string, c: RouteClass, n: int): (r: seq<HourEntry>)
    ensures |r| == |es| || |r| == |es| + 1
    ensures forall i :: 0 <= i < |es| ==> r[i].hour == es[i].hour
    ensures |r| == |es| <==> exists i :: 0 <= i < |es| && es[i].hour == h
    ensures |r| != |es| ==> |r| == |es| + 1 && r[|es|] == HourEntry(h, AddTo(ZeroStat, c, n))
    decreases |es|
  {
    if |es| == 0 then [HourEntry(h, AddTo(ZeroStat, c, n))]
    else if es[0].hour == h then [es[0].(stat := AddTo(es[0].stat, c, n))] + es[1..]
    else
      var rest := Record(es[1..], h, c, n);
      assert forall i :: 0 < i < |es| ==> es[i] == es[1..][i - 1];
      [es[0]] + rest
  }

  lemma HourSetCons(e: HourEntry, es: seq<HourEntry>)
    ensures HourSet([e] + es) == {e.hour} + HourSet(es)
  {
    assert forall x :: x in [e] + es <==> x == e || x in es;
  }

  lemma DistinctCons(e: HourEntry, es: seq<HourEntry>)
    ensures DistinctHours([e] + es) <==> e.hour !in HourSet(es) && DistinctHours(es)
  {
    var r := [e] + es;
    if DistinctHours(r) {
      forall x | x in es
        ensures x.hour != e.hour
      {
        var j :| 0 <= j < |es| && es[j] == x;
        assert r[0] == e && r[j + 1] == x;
      }
      forall i, j | 0 <= i < j < |es|
        ensures es[i].hour != es[j].hour
      {
        assert r[i + 1] == es[i] && r[j + 1] == es[j];
      }
    }
    if e.hour !in HourSet(es) && DistinctHours(es) {
      forall i, j | 0 <= i < j < |r|
        ensures r[i].hour != r[j].hour
      {
        if i == 0 {
          assert r[j] == es[j - 1];
          assert r[j].hour in HourSet(es);
        } else {
          assert r[i] == es[i - 1] && r[j] == es[j - 1];
        }
      }
    }
  }

  lemma {:induction false} RecordSum(es: seq<HourEntry>, h: string, c: RouteClass, n: int)
    ensures SumTotals(Record(es, h, c, n)) == SumTotals(es) + n
    decreases |es|
  {
    if |es| == 0 {
      var e := HourEntry(h, AddTo(ZeroStat, c, n));
      SumTotalsCons(e, []);
      assert [e] + [] == [e];
    } else if es[0].hour == h {
      SumTotalsCons(es[0].(stat := AddTo(es[0].stat, c, n)), es[1..]);
    } else {
      RecordSum(es[1..], h, c, n);
      SumTotalsCons(es[0], Record(es[1..], h, c, n));
    }
  }

  lemma {:induction false} RecordHours(es: seq<HourEntry>, h: string, c: RouteClass, n: int)
    ensures HourSet(Record(es, h, c, n)) == HourSet(es) + {h}
    decreases |es|
  {
    assert HourSet([]) == {};
    if |es| == 0 {
      HourSetCons(HourEntry(h, AddTo(ZeroStat, c, n)), []);
    } else {
      assert es == [es[0]] + es[1..];
      HourSetCons(es[0], es[1..]);
      if es[0].hour == h {
        HourSetCons(es[0].(stat := AddTo(es[0].stat, c, n)), es[1..]);
      } else {
        RecordHours(es[1..], h, c, n);
        HourSetCons(es[0], Record(es[1..], h, c, n));
      }
    }
  }

  /** Recording never creates a second entry for an hour. */
  lemma {:induction false} RecordDistinct(es: seq<HourEntry>, h: string, c: RouteClass, n: int)
    requires DistinctHours(es)
    ensures DistinctHours(Record(es, h, c, n))
    decreases |es|
  {
    if |es| == 0 {
      DistinctCons(HourEntry(h, AddTo(ZeroStat, c, n)), []);
    } else {
      assert es == [es[0]] + es[1..];
      DistinctCons(es[0], es[1..]);
      if es[0].hour == h {
        DistinctCons(es[0].(stat := AddTo(es[0].stat, c, n)), es[1..]);
      } else {
        RecordDistinct(es[1..], h, c, n);
        RecordHours(es[1..], h, c, n);
        DistinctCons(es[0], Record(es[1..], h, c, n));
      }
    }
  }

  lemma {:induction false} RecordBalanced(es: seq<HourEntry>, h: string, c: RouteClass, n: int)
    requires AllBalanced(es)
    ensures AllBalanced(Record(es, h, c, n))
    decreases |es|
  {
    if |es| > 0 && es[0].hour != h {
      assert es == [es[0]] + es[1..];
      RecordBalanced(es[1..], h, c, n);
    }
  }

  /** Folds the day's logs into the table in order. `None` exactly when
      some log has no 'T' in its departure time. */
  function Tally(acc: seq<HourEntry>, logs: seq<OperationLog>): (r: Option<seq<HourEntry>>)
    ensures r.None? <==> exists l :: l in logs && 'T' !in l.departureTime
    decreases |logs|
  {
    if |logs| == 0 then Some(acc)
    else
      assert forall l :: l in logs <==> l == logs[0] || l in logs[1..];
      match HourKey(logs[0].departureTime)
      case None => None
      case Some(h) => Tally(Record(acc, h, Classify(logs[0]), logs[0].passengerCount), logs[1..])
  }

  /** The hour labels a list of logs produces. */
  function KeySet(logs: seq<OperationLog>): set<string>
  {
    set l | l in logs && HourKey(l.departureTime).Some? :: HourKey(l.departureTime).value
  }

  /** Peeling the first log off adds its hour label. */
  lemma KeySetCons(logs: seq<OperationLog>, h: string)
    requires |logs| > 0 && HourKey(logs[0].departureTime) == Some(h)
    ensures KeySet(logs) == {h} + KeySet(logs[1..])
  {
    assert forall x :: x in logs <==> x == logs[0] || x in logs[1..];
  }

  /** The fold conserves passengers: the table's totals grow by exactly the
      passengers of the logs folded in. */
  lemma {:induction false} TallySum(acc: seq<HourEntry>, logs: seq<OperationLog>)
    requires Tally(acc, logs).Some?
    ensures SumTotals(Tally(acc, logs).value) == SumTotals(acc) + SumPassengers(logs)
    decreases |logs|
  {
    if |logs| > 0 {
      var h := HourKey(logs[0].departureTime).value;
      var next := Record(acc, h, Classify(logs[0]), logs[0].passengerCount);
      TallySum(next, logs[1..]);
      RecordSum(acc, h, Classify(logs[0]), logs[0].passengerCount);
      assert logs == [logs[0]] + logs[1..];
      SumPassengersCons(logs[0], logs[1..]);
    }
  }

  /** The fold keeps hours distinct. */
  lemma {:induction false} TallyDistinct(acc: seq<HourEntry>, logs: seq<OperationLog>)
    requires Tally(acc, logs).Some?
    requires DistinctHours(acc)
    ensures DistinctHours(Tally(acc, logs).value)
    decreases |logs|
  {
    if |logs| > 0 {
      var h := HourKey(logs[0].departureTime).value;
      RecordDistinct(acc, h, Classify(logs[0]), logs[0].passengerCount);
      TallyDistinct(Record(acc, h, Classify(logs[0]), logs[0].passengerCount), logs[1..]);
    }
  }

  /** The fold keeps every entry balanced. */
  lemma {:induction false} TallyBalanced(acc: seq<HourEntry>, logs: seq<OperationLog>)
    requires Tally(acc, logs).Some?
    requires AllBalanced(acc)
    ensures AllBalanced(Tally(acc, logs).value)
    decreases |logs|
  {
    if |logs| > 0 {
      var h := HourKey(logs[0].departureTime).value;
      RecordBalanced(acc, h, Classify(logs[0]), logs[0].passengerCount);
      TallyBalanced(Record(acc, h, Classify(logs[0]), logs[0].passengerCount), logs[1..]);
    }
  }

  /** The table's hours are the accumulator's plus those of the logs. */
  lemma {:induction false} TallyHours(acc: seq<HourEntry>, logs: seq<OperationLog>)
    requires Tally(acc, logs).Some?
    ensures HourSet(Tally(acc, logs).value) == HourSet(acc) + KeySet(logs)
    decreases |logs|
  {
    if |logs| == 0 {
      assert KeySet(logs) == {};
    } else {
      var h := HourKey(logs[0].departureTime).value;
      var next := Record(acc, h, Classify(logs[0]), logs[0].passengerCount);
      assert Tally(acc, logs) == Tally(next, logs[1..]);
      TallyHours(next, logs[1..]);
      RecordHours(acc, h, Classify(logs[0]), logs[0].passengerCount);
      KeySetCons(logs, h);
      UnionRegroup(HourSet(acc), h, KeySet(logs[1..]));
    }
  }

  lemma UnionRegroup(a: set<string>, h: string, k: set<string>)
    ensures (a + {h}) + k == a + ({h} + k)
  {
  }

  /** The row a table shows for an hour label: the first entry with that
      label, or the empty row when there is none. */
  function Lookup(es: seq<HourEntry>, h: string): HourStat
  {
    if |es| == 0 then ZeroStat
    else if es[0].hour == h then es[0].stat
    else Lookup(es[1..], h)
  }

  /** A log departs in the hour labelled `h`. */
  function AtHour(h: string): OperationLog -> bool
  {
    (l: OperationLog) => HourKey(l.departureTime) == Some(h)
  }

  /** A log departs in the hour labelled `h` on route `c`. */
  function OnRoute(h: string, c: RouteClass): OperationLog -> bool
  {
    (l: OperationLog) => HourKey(l.departureTime) == Some(h) && Classify(l) == c
  }

  /** The row an hour should show, read off the logs directly: each route
      column sums the passengers of that hour's logs on that route, and the
      total sums the passengers of all of that hour's logs. */
  function HourRow(logs: seq<OperationLog>, h: string): HourStat
  {
    HourStat(
      SumPassengersWhere(logs, OnRoute(h, AtoB)),
      SumPassengersWhere(logs, OnRoute(h, BtoA)),
      SumPassengersWhere(logs, OnRoute(h, OtherRoute)),
      SumPassengersWhere(logs, AtHour(h)))
  }

  /** The reference row's columns are sums over the filtered logs. */
  lemma HourRowAsFilters(logs: seq<OperationLog>, h: string)
    ensures HourRow(logs, h).ab == SumPassengers(Filter(logs, OnRoute(h, AtoB)))
    ensures HourRow(logs, h).ba == SumPassengers(Filter(logs, OnRoute(h, BtoA)))
    ensures HourRow(logs, h).others == SumPassengers(Filter(logs, OnRoute(h, OtherRoute)))
    ensures HourRow(logs, h).total == SumPassengers(Filter(logs, AtHour(h)))
  {
    SumPassengersOfFilter(logs, OnRoute(h, AtoB));
    SumPassengersOfFilter(logs, OnRoute(h, BtoA));
    SumPassengersOfFilter(logs, OnRoute(h, OtherRoute));
    SumPassengersOfFilter(logs, AtHour(h));
  }

  /** What one log adds to the row of hour `h`. */
  function Contribution(l: OperationLog, h: string): HourStat
  {
    if HourKey(l.departureTime) == Some(h) then AddTo(ZeroStat, Classify(l), l.passengerCount) else ZeroStat
  }

  lemma HourRowEmpty(h: string)
    ensures HourRow([], h) == ZeroStat
  {
  }

  /** Peeling the first log off a reference row. */
  lemma HourRowCons(logs: seq<OperationLog>, h: string)
    requires |logs| > 0
    ensures HourRow(logs, h) == Plus(Contribution(logs[0], h), HourRow(logs[1..], h))
  {
    var l, rest, n := logs[0], logs[1..], logs[0].passengerCount;
    var here := HourKey(l.departureTime) == Some(h);
    var c := Classify(l);
    var row := HourRow(rest, h);
    assert HourRow(logs, h).ab == (if here && c == AtoB then n else 0) + row.ab;
    assert HourRow(logs, h).ba == (if here && c == BtoA then n else 0) + row.ba;
    assert HourRow(logs, h).others == (if here && c == OtherRoute then n else 0) + row.others;
    assert HourRow(logs, h).total == (if here then n else 0) + row.total;
    assert Contribution(l, h) == if here then AddTo(ZeroStat, c, n) else ZeroStat;
    RowAlgebra(here, c, n, row, HourRow(logs, h));
  }

  /** A row whose columns each grow by the voyage's passengers when it falls
      in that column is the old row plus the voyage's own row. */
  lemma RowAlgebra(here: bool, c: RouteClass, n: int, row: HourStat, full: HourStat)
    requires full.ab == (if here && c == AtoB then n else 0) + row.ab
    requires full.ba == (if here && c == BtoA then n else 0) + row.ba
    requires full.others == (if here && c == OtherRoute then n else 0) + row.others
    requires full.total == (if here then n else 0) + row.total
    ensures full == Plus(if here then AddTo(ZeroStat, c, n) else ZeroStat, row)
  {
  }

  /** Recording a voyage adds its row to the row of its hour and leaves
      every other hour's row alone. */
  lemma {:induction false} RecordLookup(es: seq<HourEntry>, h: string, c: RouteClass, n: int, k: string)
    ensures Lookup(Record(es, h, c, n), k) == Plus(Lookup(es, k), if k == h then AddTo(ZeroStat, c, n) else ZeroStat)
    decreases |es|
  {
    var r := Record(es, h, c, n);
    var add := if k == h then AddTo(ZeroStat, c, n) else ZeroStat;
    if |es| == 0 {
      assert r == [HourEntry(h, AddTo(ZeroStat, c, n))];
      assert Lookup(es, k) == ZeroStat;
      if k == h {
        assert Lookup(r, k) == AddTo(ZeroStat, c, n);
      } else {
        assert Lookup(r, k) == Lookup(r[1..], k);
        assert r[1..] == [];
      }
      PlusZero(add);
    } else if es[0].hour == h {
      assert r == [es[0].(stat := AddTo(es[0].stat, c, n))] + es[1..];
      assert r[1..] == es[1..];
      if k == h {
        assert Lookup(r, k) == AddTo(es[0].stat, c, n);
        AddToIsPlus(es[0].stat, c, n);
      } else {
        assert Lookup(r, k) == Lookup(es[1..], k) == Lookup(es, k);
        PlusZero(Lookup(es, k));
      }
    } else {
      var rest := Record(es[1..], h, c, n);
      assert r == [es[0]] + rest;
      assert r[1..] == rest;
      if k == es[0].hour {
        assert Lookup(r, k) == es[0].stat == Lookup(es, k);
        PlusZero(Lookup(es, k));
      } else {
        assert Lookup(r, k) == Lookup(rest, k);
        assert Lookup(es, k) == Lookup(es[1..], k);
        RecordLookup(es[1..], h, c, n, k);
      }
    }
  }

  /** The fold adds each hour's reference row to that hour's row. */
  lemma {:induction false} TallyRow(acc: seq<HourEntry>, logs: seq<OperationLog>, k: string)
    requires Tally(acc, logs).Some?
    ensures Lookup(Tally(acc, logs).value, k) == Plus(Lookup(acc, k), HourRow(logs, k))
    decreases |logs|
  {
    if |logs| == 0 {
      HourRowEmpty(k);
    } else {
      var h := HourKey(logs[0].departureTime).value;
      var next := Record(acc, h, Classify(logs[0]), logs[0].passengerCount);
      var add := if k == h then AddTo(ZeroStat, Classify(logs[0]), logs[0].passengerCount) else ZeroStat;
      assert Tally(acc, logs) == Tally(next, logs[1..]);
      TallyRow(next, logs[1..], k);
      RecordLookup(acc, h, Classify(logs[0]), logs[0].passengerCount, k);
      HourRowCons(logs, k);
      assert Contribution(logs[0], k) == add;
      PlusAssoc(Lookup(acc, k), add, HourRow(logs[1..], k));
    }
  }

  /** In a table with distinct hours, an entry is the row of its hour. */
  lemma {:induction false} LookupEntry(es: seq<HourEntry>, i: nat)
    requires DistinctHours(es) && i < |es|
    ensures Lookup(es, es[i].hour) == es[i].stat
    decreases i
  {
    if i > 0 {
      assert es[0].hour != es[i].hour;
      assert es == [es[0]] + es[1..];
      DistinctCons(es[0], es[1..]);
      LookupEntry(es[1..], i - 1);
    }
  }

  /** What the fold keeps: passengers are conserved, hours stay distinct,
      every entry stays balanced, the hours are those of the logs, and
      every hour's row grows by exactly that hour's reference row. */
  lemma TallyInvariants(acc: seq<HourEntry>, logs: seq<OperationLog>)
    requires Tally(acc, logs).Some?
    ensures SumTotals(Tally(acc, logs).value) == SumTotals(acc) + SumPassengers(logs)
    ensures DistinctHours(acc) ==> DistinctHours(Tally(acc, logs).value)
    ensures AllBalanced(acc) ==> AllBalanced(Tally(acc, logs).value)
    ensures HourSet(Tally(acc, logs).value) == HourSet(acc) + KeySet(logs)
    ensures forall k :: Lookup(Tally(acc, logs).value, k) == Plus(Lookup(acc, k), HourRow(logs, k))
  {
    TallySum(acc, logs);
    TallyHours(acc, logs);
    forall k
      ensures Lookup(Tally(acc, logs).value, k) == Plus(Lookup(acc, k), HourRow(logs, k))
    {
      TallyRow(acc, logs, k);
    }
    if DistinctHours(acc) {
      TallyDistinct(acc, logs);
    }
    if AllBalanced(acc) {
      TallyBalanced(acc, logs);
    }
  }

  /** Strictly descending hour labels; in particular no label repeats. */
  predicate SortedDesc(es: seq<HourEntry>)
  {
    forall i, j :: 0 <= i < j < |es| ==> LexLess(es[j].hour, es[i].hour)
  }

  /** Inserts an entry before the first one with a smaller label. */
  function InsertDesc(e: HourEntry, s: seq<HourEntry>): seq<HourEntry>
  {
    if |s| == 0 then [e]
    else if LexLess(s[0].hour, e.hour) then [e] + s
    else [s[0]] + InsertDesc(e, s[1..])
  }

  /** Insertion sort by hour label, the latest hour first. */
  function SortDesc(es: seq<HourEntry>): seq<HourEntry>
  {
    if |es| == 0 then [] else InsertDesc(es[0], SortDesc(es[1..]))
  }

  lemma {:induction false} InsertDescPermutes(e: HourEntry, s: seq<HourEntry>)
    ensures multiset(InsertDesc(e, s)) == multiset(s) + multiset{e}
    ensures SumTotals(InsertDesc(e, s)) == e.stat.total + SumTotals(s)
  {
    if |s| == 0 {
      SumTotalsCons(e, []);
      assert [e] + [] == [e];
    } else if LexLess(s[0].hour, e.hour) {
      SumTotalsCons(e, s);
    } else {
      assert s == [s[0]] + s[1..];
      InsertDescPermutes(e, s[1..]);
      SumTotalsCons(s[0], InsertDesc(e, s[1..]));
    }
  }

  lemma HourSetOfPermutation(a: seq<HourEntry>, b: seq<HourEntry>)
    requires multiset(a) == multiset(b)
    ensures HourSet(a) == HourSet(b)
  {
    assert forall x :: x in a <==> x in multiset(a);
    assert forall x :: x in b <==> x in multiset(b);
  }

  /** An entry above every label of a sorted table may go in front. */
  lemma ConsDesc(h: HourEntry, rest: seq<HourEntry>)
    requires SortedDesc(rest)
    requires forall x :: x in rest ==> LexLess(x.hour, h.hour)
    ensures SortedDesc([h] + rest)
  {
    var r := [h] + rest;
    forall i, j | 0 <= i < j < |r|
      ensures LexLess(r[j].hour, r[i].hour)
    {
      if i == 0 {
        assert r[j] == rest[j - 1];
      } else {
        assert r[i] == rest[i - 1] && r[j] == rest[j - 1];
      }
    }
  }

  /** The head of a sorted table is above every later label. */
  lemma HeadAboveTail(s: seq<HourEntry>)
    requires SortedDesc(s) && |s| > 0
    ensures forall x :: x in s[1..] ==> LexLess(x.hour, s[0].hour)
  {
    forall x | x in s[1..]
      ensures LexLess(x.hour, s[0].hour)
    {
      var k :| 0 <= k < |s[1..]| && s[1..][k] == x;
      assert s[k + 1] == x;
    }
  }

  lemma {:induction false} InsertDescSorted(e: HourEntry, s: seq<HourEntry>)
    requires SortedDesc(s)
    requires e.hour !in HourSet(s)
    ensures SortedDesc(InsertDesc(e, s))
  {
    if |s| == 0 {
    } else if LexLess(s[0].hour, e.hour) {
      HeadAboveTail(s);
      forall x | x in s
        ensures LexLess(x.hour, e.hour)
      {
        if x != s[0] {
          assert x in s[1..];
          LexLessTransitive(x.hour, s[0].hour, e.hour);
        }
      }
      ConsDesc(e, s);
    } else {
      assert s == [s[0]] + s[1..];
      HourSetCons(s[0], s[1..]);
      LexLessTotal(s[0].hour, e.hour);
      assert SortedDesc(s[1..]);
      InsertDescSorted(e, s[1..]);
      InsertDescPermutes(e, s[1..]);
      HeadAboveTail(s);
      var rest := InsertDesc(e, s[1..]);
      forall x | x in rest
        ensures LexLess(x.hour, s[0].hour)
      {
        assert x in multiset(rest);
        if x != e {
          assert x in multiset(s[1..]);
        }
      }
      ConsDesc(s[0], rest);
    }
  }

  /** Sorting permutes the table, keeps its total and its hours, and, for
      distinct hours, orders it strictly by descending label. */
  lemma {:induction false} SortDescCorrect(es: seq<HourEntry>)
    ensures multiset(SortDesc(es)) == multiset(es)
    ensures SumTotals(SortDesc(es)) == SumTotals(es)
    ensures HourSet(SortDesc(es)) == HourSet(es)
    ensures DistinctHours(es) ==> SortedDesc(SortDesc(es))
  {
    if |es| > 0 {
      assert es == [es[0]] + es[1..];
      var rest := SortDesc(es[1..]);
      SortDescCorrect(es[1..]);
      InsertDescPermutes(es[0], rest);
      HourSetOfPermutation(SortDesc(es), es);
      if DistinctHours(es) {
        DistinctCons(es[0], es[1..]);
        InsertDescSorted(es[0], rest);
      }
    } else {
      assert SortDesc(es) == es;
    }
  }

  /** The table built from a day's departures, sorted: latest hour first,
      one entry per hour label, each entry the reference row of its hour,
      and the totals adding up to the day's passengers. */
  lemma {:induction false} SortedTableCorrect(todays: seq<OperationLog>)
    requires Tally([], todays).Some?
    ensures var t := SortDesc(Tally([], todays).value);
      && SortedDesc(t)
      && HourSet(t) == KeySet(todays)
      && (forall e :: e in t ==> e.stat == HourRow(todays, e.hour))
      && (forall e :: e in t ==>
            && e.stat.ab == SumPassengers(Filter(todays, OnRoute(e.hour, AtoB)))
            && e.stat.ba == SumPassengers(Filter(todays, OnRoute(e.hour, BtoA)))
            && e.stat.others == SumPassengers(Filter(todays, OnRoute(e.hour, OtherRoute)))
            && e.stat.total == SumPassengers(Filter(todays, AtHour(e.hour))))
      && (forall e :: e in t ==> Balanced(e.stat))
      && SumTotals(t) == SumPassengers(todays)
  {
    var es := Tally([], todays).value;
    TallyInvariants([], todays);
    assert HourSet([]) == {};
    SortDescCorrect(es);
    var t := SortDesc(es);
    forall e | e in t
      ensures e.stat == HourRow(todays, e.hour) && Balanced(e.stat)
      ensures e.stat.ab == SumPassengers(Filter(todays, OnRoute(e.hour, AtoB)))
      ensures e.stat.ba == SumPassengers(Filter(todays, OnRoute(e.hour, BtoA)))
      ensures e.stat.others == SumPassengers(Filter(todays, OnRoute(e.hour, OtherRoute)))
      ensures e.stat.total == SumPassengers(Filter(todays, AtHour(e.hour)))
    {
      assert e in multiset(t);
      assert e in es;
      EntryIsHourRow(todays, e);
    }
  }

  /** Every entry of the unsorted table is the reference row of its hour. */
  lemma EntryIsHourRow(todays: seq<OperationLog>, e: HourEntry)
    requires Tally([], todays).Some? && e in Tally([], todays).value
    ensures e.stat == HourRow(todays, e.hour)
    ensures e.stat.ab == SumPassengers(Filter(todays, OnRoute(e.hour, AtoB)))
    ensures e.stat.ba == SumPassengers(Filter(todays, OnRoute(e.hour, BtoA)))
    ensures e.stat.others == SumPassengers(Filter(todays, OnRoute(e.hour, OtherRoute)))
    ensures e.stat.total == SumPassengers(Filter(todays, AtHour(e.hour)))
  {
    var es := Tally([], todays).value;
    TallyDistinct([], todays);
    var i :| 0 <= i < |es| && es[i] == e;
    LookupEntry(es, i);
    TallyRow([], todays, e.hour);
    assert Lookup([], e.hour) == ZeroStat;
    PlusZero(HourRow(todays, e.hour));
    HourRowAsFilters(todays, e.hour);
  }

  /** The hourly route table. `None` exactly when a log departing today has
      no 'T' in its departure time (the page's expression throws there).
      Otherwise one entry per hour label of today's departures, latest hour
      first; each entry's A→B, B→A and other columns sum the passengers of
      that hour's departures on that route, its total sums all of that
      hour's departures, and the totals add up to the day's passengers. */
  function HourlyStats(logs: seq<OperationLog>, today: string): (r: Option<seq<HourEntry>>)
    ensures r.None? <==> exists l :: l in logs && StartsWith(l.departureTime, today) && 'T' !in l.departureTime
    ensures r.Some? ==>
      var todays := DepartingToday(logs, today);
      && SortedDesc(r.value)
      && HourSet(r.value) == KeySet(todays)
      && (forall e :: e in r.value ==>
            && e.stat.ab == SumPassengers(Filter(todays, OnRoute(e.hour, AtoB)))
            && e.stat.ba == SumPassengers(Filter(todays, OnRoute(e.hour, BtoA)))
            && e.stat.others == SumPassengers(Filter(todays, OnRoute(e.hour, OtherRoute)))
            && e.stat.total == SumPassengers(Filter(todays, AtHour(e.hour))))
      && (forall e :: e in r.value ==> e.stat.total == e.stat.ab + e.stat.ba + e.stat.others)
      && SumTotals(r.value) == SumPassengers(todays)
  {
    var todays := DepartingToday(logs, today);
    match Tally([], todays)
    case None => None
    case Some(es) =>
      SortedTableCorrect(todays);
      Some(SortDesc(es))
  }

  /** The load a ship shows in the capacity summary: the passengers of the
      first in-transit log on that ship, or 0 when none is under way. */
  function ShipLoad(ship: Ship, transit: seq<OperationLog>): (n: int)
    ensures (forall l :: l in transit ==> l.shipName != ship.name) ==> n == 0
    ensures forall i :: (0 <= i < |transit| && transit[i].shipName == ship.name
      && forall j :: 0 <= j < i ==> transit[j].shipName != ship.name) ==> n == transit[i].passengerCount
    decreases |transit|
  {
    if |transit| == 0 then 0
    else if transit[0].shipName == ship.name then transit[0].passengerCount
    else
      assert forall l :: l in transit[1..] ==> l in transit;
      assert forall i :: 0 < i < |transit| ==> transit[i] == transit[1..][i - 1];
      ShipLoad(ship, transit[1..])
  }

  datatype CapacityRow = CapacityRow(ship: Ship, load: int)

  /** The capacity summary: the first four ships, each with its load. */
  function CapacitySummary(ships: seq<Ship>, logs: seq<OperationLog>): (r: seq<CapacityRow>)
    ensures |r| == if |ships| < 4 then |ships| else 4
    ensures forall i :: 0 <= i < |r| ==> r[i].ship == ships[i]
    ensures forall i :: 0 <= i < |r| ==> r[i].load == ShipLoad(ships[i], InTransit(logs))
  {
    var shown := if |ships| < 4 then ships else ships[..4];
    var transit := InTransit(logs);
    seq(|shown|, i requires 0 <= i < |shown| => CapacityRow(shown[i], ShipLoad(shown[i], transit)))
  }

  /** 120 passengers under way on a 300-seat ship show as a 40 percent
      load. */
  lemma CapacityExample(logs: seq<OperationLog>, l: OperationLog, ship: Ship)
    requires ship.capacity == 300 && l.passengerCount == 120
    requires l.shipName == ship.name && l.departureTime != "" && l.arrivalTime == ""
    ensures ShipLoad(ship, InTransit([l] + logs)) * 100 == 40 * ship.capacity
  {
    InTransitConcat([l], logs);
    assert InTransit([l]) == [l];
  }
}
