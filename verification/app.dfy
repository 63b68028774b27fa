/** The application shell: saving, deleting and upserting records, the
    notification decision taken on every log save, login routing, the
    captain's restricted log list, and the write-back of in-memory
    collections to the persistence API. */
module App {
  import opened Types
  import opened Collections

  /** The notification a log save triggers: at most one of the two. */
  datatype Alert = NoAlert | ArrivalAlert | DepartureAlert

  /** Whether the previously stored version (if any) already had an arrival. */
  predicate PreviouslyArrived(logs: seq<OperationLog>, id: string)
  {
    match FindById(logs, LogId, id)
    case None => false
    case Some(prev) => prev.arrivalTime != ""
  }

  /** The alert for saving `log` into `logs`. An arrival alert needs a
      completed log with an arrival time whose stored version is missing or
      had none; otherwise a brand-new log with a departure time gets a
      departure alert. */
  function AlertFor(logs: seq<OperationLog>, log: OperationLog): (a: Alert)
    ensures a == ArrivalAlert <==>
      log.status == Completed && log.arrivalTime != "" && !PreviouslyArrived(logs, log.id)
    ensures a == DepartureAlert ==> !HasId(logs, LogId, log.id) && log.departureTime != ""
    ensures a == DepartureAlert ==> log.status.Draft? || log.arrivalTime == ""
    ensures a == NoAlert && !HasId(logs, LogId, log.id) ==> log.departureTime == ""
    ensures PreviouslyArrived(logs, log.id) ==> a == NoAlert
  {
    var isNew := !HasId(logs, LogId, log.id);
    assert isNew ==> !PreviouslyArrived(logs, log.id);
    if log.status.Completed? && log.arrivalTime != "" && !PreviouslyArrived(logs, log.id) then ArrivalAlert
    else if isNew && log.departureTime != "" then DepartureAlert
    else NoAlert
  }

  /** What a log save produces: the new list, the alert, and the view to
      switch to (`None` keeps the current one). */
  datatype SaveOutcome = SaveOutcome(logs: seq<OperationLog>, alert: Alert, nextView: Option<PageView>)

  /** Saving a log: replaces the stored log with the same id in place, or
      puts the new one first; an administrator is taken to the log list. */
  function SaveLog(logs: seq<OperationLog>, log: OperationLog, role: Option<UserRole>): (r: SaveOutcome)
    ensures FindById(r.logs, LogId, log.id) == Some(log)
    ensures HasId(logs, LogId, log.id) ==> |r.logs| == |logs|
    ensures HasId(logs, LogId, log.id) ==>
      var i := IndexOfId(logs, LogId, log.id).value;
      r.logs[i] == log && forall j :: 0 <= j < |logs| && j != i ==> r.logs[j] == logs[j]
    ensures !HasId(logs, LogId, log.id) ==> r.logs == [log] + logs
    ensures r.alert == AlertFor(logs, log)
    ensures r.nextView.Some? <==> role == Some(Admin)
    ensures r.nextView.Some? ==> r.nextView.value == LogListView
  {
    UpsertFrontThenFind(logs, LogId, log);
    var next := UpsertFront(logs, LogId, log);
    assert !HasId(logs, LogId, log.id) ==> next == [log] + logs by {
      if !HasId(logs, LogId, log.id) {
        assert next == [next[0]] + next[1..];
      }
    }
    SaveOutcome(next, AlertFor(logs, log), if role == Some(Admin) then Some(LogListView) else None)
  }

  /** Once a log with an arrival time is stored, saving that id again never
      fires any alert. */
  lemma NoAlertAfterArrival(logs: seq<OperationLog>, log: OperationLog, role: Option<UserRole>, again: OperationLog)
    requires log.arrivalTime != ""
    requires again.id == log.id
    ensures SaveLog(SaveLog(logs, log, role).logs, again, role).alert == NoAlert
  {
  }

  /** Saving the same log twice leaves the list as one save does. */
  lemma SaveLogIdempotent(logs: seq<OperationLog>, log: OperationLog, role: Option<UserRole>)
    ensures SaveLog(SaveLog(logs, log, role).logs, log, role).logs == SaveLog(logs, log, role).logs
  {
    UpsertFrontIdempotent(logs, LogId, log);
  }

  /** A new in-transit log raises a departure alert; completing it raises
      exactly one arrival alert; a further save raises none. */
  lemma VoyageAlertScenario(logs: seq<OperationLog>, dep: OperationLog, arrival: string, role: Option<UserRole>)
    requires !HasId(logs, LogId, dep.id)
    requires dep.departureTime != "" && dep.arrivalTime == ""
    requires arrival != ""
    ensures var s1 := SaveLog(logs, dep, role);
      var done := dep.(arrivalTime := arrival, status := Completed);
      var s2 := SaveLog(s1.logs, done, role);
      var s3 := SaveLog(s2.logs, done, role);
      s1.alert == DepartureAlert && s2.alert == ArrivalAlert && s3.alert == NoAlert
  {
    var s1 := SaveLog(logs, dep, role);
    var done := dep.(arrivalTime := arrival, status := Completed);
    assert !PreviouslyArrived(s1.logs, done.id);
  }

  /** Deleting a log: every log with that id goes, the rest stay. */
  function DeleteLog(logs: seq<OperationLog>, id: string): (r: seq<OperationLog>)
    ensures forall l :: l in r <==> l in logs && l.id != id
    ensures FindById(r, LogId, id).None?
    ensures HasId(logs, LogId, id) <==> |r| < |logs|
  {
    RemoveId(logs, LogId, id)
  }

  function DeleteUser(users: seq<User>, id: string): (r: seq<User>)
    ensures forall u :: u in r <==> u in users && u.id != id
    ensures FindById(r, UserId, id).None?
    ensures HasId(users, UserId, id) <==> |r| < |users|
  {
    RemoveId(users, UserId, id)
  }

  function DeleteShip(ships: seq<Ship>, id: string): (r: seq<Ship>)
    ensures forall s :: s in r <==> s in ships && s.id != id
    ensures FindById(r, ShipId, id).None?
    ensures HasId(ships, ShipId, id) <==> |r| < |ships|
  {
    RemoveId(ships, ShipId, id)
  }

  /** Deletion is idempotent and keeps the survivors in order. */
  lemma DeleteLogLaws(a: seq<OperationLog>, b: seq<OperationLog>, id: string)
    ensures DeleteLog(DeleteLog(a, id), id) == DeleteLog(a, id)
    ensures DeleteLog(a + b, id) == DeleteLog(a, id) + DeleteLog(b, id)
  {
    RemoveIdIdempotent(a, LogId, id);
    RemoveIdConcat(a, b, LogId, id);
  }

  /** Saving a user: in place on a known id, appended on a new one. */
  function SaveUser(users: seq<User>, u: User): (r: seq<User>)
    ensures FindById(r, UserId, u.id) == Some(u)
    ensures HasId(users, UserId, u.id) ==>
      var i := IndexOfId(users, UserId, u.id).value;
      |r| == |users| && r[i] == u && forall j :: 0 <= j < |users| && j != i ==> r[j] == users[j]
    ensures !HasId(users, UserId, u.id) ==> r == users + [u]
  {
    UpsertBackThenFind(users, UserId, u);
    var r := UpsertBack(users, UserId, u);
    assert !HasId(users, UserId, u.id) ==> r == r[..|users|] + [u];
    r
  }

  function SaveShip(ships: seq<Ship>, s: Ship): (r: seq<Ship>)
    ensures FindById(r, ShipId, s.id) == Some(s)
    ensures HasId(ships, ShipId, s.id) ==>
      var i := IndexOfId(ships, ShipId, s.id).value;
      |r| == |ships| && r[i] == s && forall j :: 0 <= j < |ships| && j != i ==> r[j] == ships[j]
    ensures !HasId(ships, ShipId, s.id) ==> r == ships + [s]
  {
    UpsertBackThenFind(ships, ShipId, s);
    var r := UpsertBack(ships, ShipId, s);
    assert !HasId(ships, ShipId, s.id) ==> r == r[..|ships|] + [s];
    r
  }

  lemma SaveUserIdempotent(users: seq<User>, u: User)
    ensures SaveUser(SaveUser(users, u), u) == SaveUser(users, u)
  {
    UpsertBackIdempotent(users, UserId, u);
  }

  /** The page a user lands on after logging in: the entry form for captains
      and chief engineers, the dashboard for everyone else. */
  function LandingView(user: User): (v: PageView)
    ensures v == LogEntryView <==> user.role == Captain || user.role == ChiefEngineer
    ensures v == DashboardView <==> user.role == Admin || user.role == Crew
  {
    match user.role
    case Captain => LogEntryView
    case ChiefEngineer => LogEntryView
    case Admin => DashboardView
    case Crew => DashboardView
  }

  function HasCaptainId(id: string): OperationLog -> bool
  {
    (l: OperationLog) => l.captainId == id
  }

  /** The logs the list page is given: a captain sees exactly the logs
      naming them as captain, in stored order; every other role sees all. */
  function VisibleLogs(user: User, logs: seq<OperationLog>): (r: seq<OperationLog>)
    ensures user.role == Captain ==> forall l :: l in r <==> l in logs && l.captainId == user.id
    ensures user.role == Captain ==> r == Filter(logs, HasCaptainId(user.id))
    ensures user.role != Captain ==> r == logs
  {
    if user.role == Captain then Filter(logs, HasCaptainId(user.id)) else logs
  }

  /** The four persisted collections. */
  datatype Store = Store(users: seq<User>, ships: seq<Ship>, logs: seq<OperationLog>, config: TelegramConfig)

  /** Which in-memory collections changed in one render (each change runs the
      matching write-back effect). */
  datatype Changes = Changes(users: bool, ships: bool, logs: bool, config: bool)

  const AllChanged: Changes := Changes(true, true, true, true)

  /** The in-memory state before anything is loaded. */
  const InitialState: Store := Store([], [], [], TelegramConfig("", []))

  /** The write-back effects as written: users and ships are written only
      when non-empty; logs and configuration on every change. The result is
      the stored state afterwards. */
  function SyncAsWritten(stored: Store, state: Store, changed: Changes): (r: Store)
    ensures changed.users && state.users == [] ==> r.users == stored.users
    ensures changed.ships && state.ships == [] ==> r.ships == stored.ships
    ensures state.users != [] ==> r.users == SyncAfterLoad(stored, state, changed, true).users
    ensures state.ships != [] ==> r.ships == SyncAfterLoad(stored, state, changed, true).ships
    ensures r.logs == SyncAfterLoad(stored, state, changed, true).logs
    ensures r.config == SyncAfterLoad(stored, state, changed, true).config
  {
    Store(
      if changed.users && |state.users| > 0 then state.users else stored.users,
      if changed.ships && |state.ships| > 0 then state.ships else stored.ships,
      if changed.logs then state.logs else stored.logs,
      if changed.config then state.config else stored.config)
  }

  /** As written, the effects' first run (on mount, with the empty initial
      state) overwrites the stored logs with an empty list and the stored
      configuration with a blank one, whatever was stored. */
  lemma MountOverwritesStoredLogs(stored: Store)
    ensures SyncAsWritten(stored, InitialState, AllChanged).logs == []
    ensures SyncAsWritten(stored, InitialState, AllChanged).config == TelegramConfig("", [])
    ensures SyncAsWritten(stored, InitialState, AllChanged).users == stored.users
  {
  }

  /** As written, deleting the last user is never persisted: the empty list
      is not written, so the stored user survives a reload. */
  lemma LastUserDeletionNotPersisted(u: User, stored: Store)
    requires stored.users == [u]
    ensures var state := stored.(users := DeleteUser([u], u.id));
      state.users == [] && SyncAsWritten(stored, state, Changes(true, false, false, false)).users == [u]
  {
  }

  /** The write-back gated on completion of the initial load instead of on
      non-emptiness: nothing is written before the load, and afterwards
      every changed collection is written as it is, empty or not. */
  function SyncAfterLoad(stored: Store, state: Store, changed: Changes, loaded: bool): (r: Store)
    ensures !loaded ==> r == stored
    ensures loaded && changed == AllChanged ==> r == state
    ensures loaded ==> (changed.users ==> r.users == state.users) && (!changed.users ==> r.users == stored.users)
    ensures loaded ==> (changed.ships ==> r.ships == state.ships) && (!changed.ships ==> r.ships == stored.ships)
    ensures loaded ==> (changed.logs ==> r.logs == state.logs) && (!changed.logs ==> r.logs == stored.logs)
    ensures loaded ==> (changed.config ==> r.config == state.config) && (!changed.config ==> r.config == stored.config)
  {
    if !loaded then stored
    else Store(
      if changed.users then state.users else stored.users,
      if changed.ships then state.ships else stored.ships,
      if changed.logs then state.logs else stored.logs,
      if changed.config then state.config else stored.config)
  }

  /** Once the load is done, the effects as written store exactly what the
      corrected write-back stores, except when a changed user or ship list
      is empty while the stored one is not. */
  lemma SyncAsWrittenVersusAfterLoad(stored: Store, state: Store, changed: Changes)
    ensures SyncAsWritten(stored, state, changed) == SyncAfterLoad(stored, state, changed, true) <==>
      (changed.users && state.users == [] ==> stored.users == []) &&
      (changed.ships && state.ships == [] ==> stored.ships == [])
  {
  }

  /** With the load gate, the mount leaves the store alone and a deletion of
      the last user is persisted. */
  lemma SyncAfterLoadFixesBoth(stored: Store, u: User)
    requires stored.users == [u]
    ensures SyncAfterLoad(stored, InitialState, AllChanged, false) == stored
    ensures var state := stored.(users := DeleteUser([u], u.id));
      SyncAfterLoad(stored, state, Changes(true, false, false, false), true).users == []
  {
  }
}
