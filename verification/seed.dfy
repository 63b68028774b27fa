/** The demonstration data the application starts from: five users, four
    ships and twenty generated voyage logs. The generator's random passenger
    draws and its clock readings (one per log) are parameters. */
module Seed {
  import opened Types
  import opened Text
  import opened Collections
  import LogEntry
  import Dashboard

  const InitialUsers: seq<User> := [
    User("u1", "홍길동", Admin, "010-1234-5678", "2023-01-01", Some("12345678")),
    User("u2", "김선장", Captain, "010-2222-3333", "2023-05-12", Some("87654321")),
    User("u3", "박기관", ChiefEngineer, "010-4444-5555", "2023-06-10", Some("11223344")),
    User("u4", "이승무", Crew, "010-9999-8888", "2023-08-20", None),
    User("u5", "최선장", Captain, "010-1111-2222", "2023-02-15", None)
  ]

  const InitialShips: seq<Ship> := [
    Ship("s1", "탐나라호", 300),
    Ship("s2", "아일래나호", 200),
    Ship("s3", "가우디호", 100),
    Ship("s4", "인어공주호", 100)
  ]

  /** The ship names the generator cycles through. */
  const ShipNames: seq<string> := ["탐나라호", "아일래나호", "가우디호", "인어공주호"]

  /** The captain names the generator alternates between. */
  const CaptainNames: seq<string> := ["김선장", "최선장"]

  /** The number of generated logs. */
  const DummyLogCount: nat := 20

  /** Log `i` departs on day ceil(i / 2) of May 2024. */
  function Day(i: nat): nat
  {
    (i + 1) / 2
  }

  /** `2024-05-DD`, the day padded to two digits. */
  function DateText(i: nat): string
  {
    "2024-05-" + PadStart2(NatToString(Day(i)))
  }

  predicate SeedCompleted(i: nat)
  {
    i % 3 != 0
  }

  /** `2024-05-DDThh:mm` for log `i`. */
  function Stamp(i: nat, time: string): string
  {
    DateText(i) + "T" + time
  }

  /** The fuel level of log `i`. */
  function Fuel(i: nat): int
  {
    85 - (i * 2) % 30
  }

  /** Even-numbered logs are captained by u2, odd ones by u5. */
  function SeedCaptainId(i: nat): string
  {
    if i % 2 == 0 then "u2" else "u5"
  }

  /** Completed logs arrive at 10:30; the others have no arrival yet. */
  function SeedArrivalTime(i: nat): string
  {
    if SeedCompleted(i) then Stamp(i, "10:30") else ""
  }

  /** Every fifth log carries a weather warning. */
  function SeedMemo(i: nat): string
  {
    if i % 5 == 0 then "기상 악화 주의" else "정상 운항"
  }

  /** Generated log number `i` (counting from 1); `draw` is the random draw
      in [0, 200) and `createdAt` the clock reading taken for it. */
  function DummyLog(i: nat, draw: int, createdAt: string): OperationLog
  {
    OperationLog(
      NumberedId("log-", i),
      ShipNames[i % 4],
      SeedCaptainId(i),
      CaptainNames[i % 2],
      "u3",
      "박기관",
      ["u4"],
      ["이승무"],
      Stamp(i, "09:00"),
      SeedArrivalTime(i),
      draw + 50,
      Fuel(i),
      SeedMemo(i),
      if SeedCompleted(i) then Completed else Draft,
      createdAt,
      None,
      None)
  }

  /** Whether a sequence of draws is what the random source can produce. */
  predicate ValidDraws(draws: seq<int>)
  {
    |draws| == DummyLogCount && forall k :: 0 <= k < |draws| ==> 0 <= draws[k] < 200
  }

  /** The generated logs, numbered 1 to 20 in order; log `k + 1` takes the
      `k`-th draw and the `k`-th clock reading, since the loop reads the
      clock afresh for every log. */
  function GenerateDummyLogs(draws: seq<int>, stamps: seq<string>): (r: seq<OperationLog>)
    requires ValidDraws(draws) && |stamps| == DummyLogCount
    ensures |r| == DummyLogCount
    ensures forall k :: 0 <= k < |r| ==> r[k] == DummyLog(k + 1, draws[k], stamps[k])
    ensures forall k :: 0 <= k < |r| ==> r[k].createdAt == stamps[k]
    ensures forall k :: 0 <= k < |r| ==> 50 <= r[k].passengerCount < 250
  {
    seq(DummyLogCount, k requires 0 <= k < DummyLogCount => DummyLog(k + 1, draws[k], stamps[k]))
  }

  lemma DummyLogId(i: nat, draw: int, createdAt: string)
    ensures DummyLog(i, draw, createdAt).id == NumberedId("log-", i)
  {
  }

  /** Log ids are `log-1` to `log-20`, pairwise distinct. */
  lemma SeedLogIdsDistinct(draws: seq<int>, stamps: seq<string>)
    requires ValidDraws(draws) && |stamps| == DummyLogCount
    ensures var logs := GenerateDummyLogs(draws, stamps);
      && (forall k :: 0 <= k < |logs| ==> logs[k].id == "log-" + NatToString(k + 1))
      && (forall j, k :: 0 <= j < k < |logs| ==> logs[j].id != logs[k].id)
  {
    var logs := GenerateDummyLogs(draws, stamps);
    forall k | 0 <= k < |logs|
      ensures logs[k].id == NumberedId("log-", k + 1)
    {
      DummyLogId(k + 1, draws[k], stamps[k]);
    }
    forall j, k | 0 <= j < k < |logs|
      ensures logs[j].id != logs[k].id
    {
      if logs[j].id == logs[k].id {
        NumberedIdInjective("log-", j + 1, k + 1);
      }
    }
  }

  /** A generated log is completed exactly when its number is not a multiple
      of three, and exactly then carries an arrival time. */
  lemma SeedCompletedIffArrival(draws: seq<int>, stamps: seq<string>)
    requires ValidDraws(draws) && |stamps| == DummyLogCount
    ensures var logs := GenerateDummyLogs(draws, stamps);
      forall k :: 0 <= k < |logs| ==>
        && (logs[k].status == Completed <==> (k + 1) % 3 != 0)
        && (logs[k].status == Completed <==> logs[k].arrivalTime != "")
  {
  }

  lemma FindU2()
    ensures FindById(InitialUsers, UserId, "u2") == Some(InitialUsers[1])
  {
    IndexOfIdIsFirst(InitialUsers, UserId, "u2", 1);
  }

  lemma FindU3()
    ensures FindById(InitialUsers, UserId, "u3") == Some(InitialUsers[2])
  {
    IndexOfIdIsFirst(InitialUsers, UserId, "u3", 2);
  }

  lemma FindU4()
    ensures FindById(InitialUsers, UserId, "u4") == Some(InitialUsers[3])
  {
    IndexOfIdIsFirst(InitialUsers, UserId, "u4", 3);
  }

  lemma FindU5()
    ensures FindById(InitialUsers, UserId, "u5") == Some(InitialUsers[4])
  {
    IndexOfIdIsFirst(InitialUsers, UserId, "u5", 4);
  }

  /** The captain a log names is a seeded captain with the stored name. */
  lemma SeedCaptain(i: nat)
    ensures FindById(InitialUsers, UserId, SeedCaptainId(i)).Some?
    ensures FindById(InitialUsers, UserId, SeedCaptainId(i)).value.name == CaptainNames[i % 2]
    ensures FindById(InitialUsers, UserId, SeedCaptainId(i)).value.role == Captain
  {
    if i % 2 == 0 {
      FindU2();
    } else {
      FindU5();
    }
  }

  /** Every id a generated log refers to names a seeded user with the
      stored name and the fitting role: a captain, the chief engineer and a
      crew member. */
  lemma SeedPeopleMatchUsers(i: nat, draw: int, createdAt: string)
    ensures var l := DummyLog(i, draw, createdAt);
      && FindById(InitialUsers, UserId, l.captainId).Some?
      && FindById(InitialUsers, UserId, l.captainId).value.name == l.captainName
      && FindById(InitialUsers, UserId, l.captainId).value.role == Captain
      && FindById(InitialUsers, UserId, l.engineerId).Some?
      && FindById(InitialUsers, UserId, l.engineerId).value.name == l.engineerName
      && FindById(InitialUsers, UserId, l.engineerId).value.role == ChiefEngineer
      && FindById(InitialUsers, UserId, l.crewIds[0]).Some?
      && FindById(InitialUsers, UserId, l.crewIds[0]).value.name == l.crewNames[0]
      && FindById(InitialUsers, UserId, l.crewIds[0]).value.role == Crew
  {
    var l := DummyLog(i, draw, createdAt);
    assert l.captainId == SeedCaptainId(i) && l.captainName == CaptainNames[i % 2];
    assert l.engineerId == "u3" && l.crewIds[0] == "u4";
    SeedCaptain(i);
    FindU3();
    FindU4();
  }

  lemma SeedCaptainName(i: nat)
    ensures LogEntry.NameById(InitialUsers, SeedCaptainId(i)) == CaptainNames[i % 2]
  {
    if i % 2 == 0 {
      IndexOfIdIsFirst(InitialUsers, UserId, "u2", 1);
    } else {
      IndexOfIdIsFirst(InitialUsers, UserId, "u5", 4);
    }
  }

  lemma SeedEngineerName()
    ensures LogEntry.NameById(InitialUsers, "u3") == "박기관"
  {
    IndexOfIdIsFirst(InitialUsers, UserId, "u3", 2);
  }

  lemma SeedCrewNames()
    ensures LogEntry.ResolveNames(InitialUsers, ["u4"]) == ["이승무"]
  {
    IndexOfIdIsFirst(InitialUsers, UserId, "u4", 3);
    var r := LogEntry.ResolveNames(InitialUsers, ["u4"]);
    assert r[0] == LogEntry.NameById(InitialUsers, "u4") == InitialUsers[3].name;
  }

  /** Because the stored names agree with the users, re-saving a generated
      log through the entry form, with the seeded users, changes no name. */
  lemma SeedNamesSurviveResave(i: nat, draw: int, createdAt: string)
    ensures var l := DummyLog(i, draw, createdAt);
      && LogEntry.NameById(InitialUsers, l.captainId) == l.captainName
      && LogEntry.NameById(InitialUsers, l.engineerId) == l.engineerName
      && LogEntry.ResolveNames(InitialUsers, l.crewIds) == l.crewNames
  {
    var l := DummyLog(i, draw, createdAt);
    assert l.captainId == SeedCaptainId(i) && l.captainName == CaptainNames[i % 2];
    assert l.engineerId == "u3" && l.engineerName == "박기관";
    assert l.crewIds == ["u4"] && l.crewNames == ["이승무"];
    SeedCaptainName(i);
    SeedEngineerName();
    SeedCrewNames();
  }

  /** Log `i` sails the `i mod 4`-th ship of the cycle, and that is a
      seeded ship. */
  lemma SeedShipsExist(i: nat, draw: int, createdAt: string)
    ensures DummyLog(i, draw, createdAt).shipName == ShipNames[i % 4]
    ensures exists s :: s in InitialShips && s.name == DummyLog(i, draw, createdAt).shipName
  {
    assert InitialShips[i % 4].name == ShipNames[i % 4];
  }

  /** Fuel levels are 85 - (2i mod 30); the remainder of an even number
      by 30 is even, so at most 28. */
  lemma FuelRange(i: nat)
    ensures Fuel(i) == 85 - (2 * i) % 30
    ensures 57 <= Fuel(i) <= 85
  {
    var q, r := i / 15, i % 15;
    assert i * 2 == 30 * q + 2 * r;
    assert (i * 2) % 30 == 2 * r;
  }

  /** Passenger counts lie in [50, 249]; fuel levels in [57, 85]. */
  lemma SeedRanges(i: nat, draw: int, createdAt: string)
    requires 0 <= draw < 200
    ensures 50 <= DummyLog(i, draw, createdAt).passengerCount <= 249
    ensures DummyLog(i, draw, createdAt).fuelLevel == 85 - (2 * i) % 30
    ensures 57 <= DummyLog(i, draw, createdAt).fuelLevel <= 85
  {
    FuelRange(i);
  }

  predicate AllDigits(s: string)
  {
    forall k :: 0 <= k < |s| ==> '0' <= s[k] <= '9'
  }

  /** Zero-padding keeps a numeral all digits. */
  lemma PaddedDigits(d: string)
    requires AllDigits(d)
    ensures AllDigits(PadStart2(d))
  {
    var p := PadStart2(d);
    forall k | 0 <= k < |p|
      ensures '0' <= p[k] <= '9'
    {
      if k >= |p| - |d| {
        assert p[k] == p[|p| - |d|..][k - (|p| - |d|)];
      }
    }
  }

  /** A date prefix followed by digits has no 'T' and no ':'. */
  lemma DatePrefixNoT(p: string)
    requires AllDigits(p)
    ensures 'T' !in "2024-05-" + p && ':' !in "2024-05-" + p
  {
    var s := "2024-05-" + p;
    forall k | 0 <= k < |s|
      ensures s[k] != 'T' && s[k] != ':'
    {
      if k >= 8 {
        assert s[k] == p[k - 8];
      }
    }
  }

  lemma DateHasNoT(i: nat)
    ensures 'T' !in DateText(i) && ':' !in DateText(i)
  {
    PaddedDigits(NatToString(Day(i)));
    DatePrefixNoT(PadStart2(NatToString(Day(i))));
  }

  lemma StampParts(d: string)
    ensures d + "T" + "09:00" == d + "T" + "09" + ":" + "00"
  {
    assert "09:00" == "09" + ":" + "00";
  }

  /** A stamp of log `i` splits into its date and its time. */
  lemma StampSplits(i: nat, time: string)
    requires 'T' !in time
    ensures Before(Stamp(i, time), 'T') == DateText(i)
    ensures SecondField(Stamp(i, time), 'T') == Some(time)
  {
    DateHasNoT(i);
    SplitStamp(DateText(i), time);
  }

  /** A 09:00 stamp falls in the dashboard's "09:00" row. */
  lemma StampHour(i: nat)
    ensures Dashboard.HourKey(Stamp(i, "09:00")) == Some("09:00")
  {
    DateHasNoT(i);
    NineOClock(DateText(i));
  }

  lemma NineOClock(d: string)
    requires 'T' !in d
    ensures Dashboard.HourKey(d + "T" + "09:00") == Some("09:00")
  {
    StampParts(d);
    Dashboard.HourKeyOfStamp(d, "09", "00");
    assert "09" + ":00" == "09:00";
  }

  /** Every voyage departs at 09:00, so it falls into the dashboard's
      "09:00" row. */
  lemma SeedDepartureHour(i: nat, draw: int, createdAt: string)
    ensures Dashboard.HourKey(DummyLog(i, draw, createdAt).departureTime) == Some("09:00")
  {
    assert DummyLog(i, draw, createdAt).departureTime == Stamp(i, "09:00");
    StampHour(i);
  }

  /** Every voyage departs on its own date. */
  lemma SeedDepartureDate(i: nat, draw: int, createdAt: string)
    ensures Before(DummyLog(i, draw, createdAt).departureTime, 'T') == DateText(i)
  {
    assert DummyLog(i, draw, createdAt).departureTime == Stamp(i, "09:00");
    StampSplits(i, "09:00");
  }

  /** A completed voyage arrives at 10:30 on its departure date. */
  lemma SeedArrival(i: nat, draw: int, createdAt: string)
    requires SeedCompleted(i)
    ensures Before(DummyLog(i, draw, createdAt).arrivalTime, 'T') == DateText(i)
    ensures SecondField(DummyLog(i, draw, createdAt).arrivalTime, 'T') == Some("10:30")
  {
    assert DummyLog(i, draw, createdAt).arrivalTime == Stamp(i, "10:30");
    StampSplits(i, "10:30");
  }

  /** Seeded users have distinct ids and seeded ships positive capacities. */
  lemma SeedReferenceData()
    ensures forall j, k :: 0 <= j < k < |InitialUsers| ==> InitialUsers[j].id != InitialUsers[k].id
    ensures forall s :: s in InitialShips ==> s.capacity > 0
  {
  }
}
