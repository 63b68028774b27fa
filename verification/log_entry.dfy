/** The voyage-log entry page: the partially filled form, the draft/submit
    gates, the crew checkbox toggle, the role-filtered pickers and the
    construction of the saved record, which re-resolves every display name
    from the live user list by id. */
module LogEntry {
  import opened Types
  import opened Text
  import opened Collections

  /** The form state: every log field, each possibly missing (`Partial`).
      A numeric field holds `None` when it is missing or not a number. */
  datatype LogForm = LogForm(
    id: Option<string>,
    shipName: Option<string>,
    captainId: Option<string>,
    captainName: Option<string>,
    engineerId: Option<string>,
    engineerName: Option<string>,
    crewIds: Option<seq<string>>,
    crewNames: Option<seq<string>>,
    departureTime: Option<string>,
    arrivalTime: Option<string>,
    passengerCount: Option<int>,
    fuelLevel: Option<int>,
    memo: Option<string>,
    status: Option<LogStatus>,
    createdAt: Option<string>)

  /** JavaScript `Number(x) || 0`. */
  function NumberOrZero(o: Option<int>): int
  {
    if o.Some? then o.value else 0
  }

  function CrewIdsOf(f: LogForm): seq<string>
  {
    if f.crewIds.Some? then f.crewIds.value else []
  }

  /** The form a new entry starts from. */
  const BlankForm: LogForm := LogForm(
    None, Some(""), Some(""), Some(""), Some(""), Some(""), Some([]), Some([]),
    Some(""), Some(""), Some(0), Some(100), Some(""), Some(Draft), None)

  /** The form holding an existing log for editing. */
  function FormOf(l: OperationLog): LogForm
  {
    LogForm(
      Some(l.id), Some(l.shipName), Some(l.captainId), Some(l.captainName),
      Some(l.engineerId), Some(l.engineerName), Some(l.crewIds), Some(l.crewNames),
      Some(l.departureTime), Some(l.arrivalTime), Some(l.passengerCount), Some(l.fuelLevel),
      Some(l.memo), Some(l.status), Some(l.createdAt))
  }

  /** The form after the page opens: the edited log when there is one;
      otherwise the previous form with the departure time set to `nowStamp`
      (the clock reading, passed in) and, for a captain, the captain fields
      set to the current user. */
  function OpenForm(prev: LogForm, current: User, editing: Option<OperationLog>, nowStamp: string): (f: LogForm)
    ensures editing.Some? ==> f == FormOf(editing.value)
    ensures editing.None? ==> f.departureTime == Some(nowStamp) && f.id == prev.id && f.createdAt == prev.createdAt
    ensures editing.None? && current.role == Captain ==>
      f.captainId == Some(current.id) && f.captainName == Some(current.name)
    ensures editing.None? && current.role != Captain ==>
      f.captainId == prev.captainId && f.captainName == prev.captainName
    ensures editing.None? ==>
      f.(departureTime := prev.departureTime, captainId := prev.captainId, captainName := prev.captainName) == prev
  {
    match editing
    case Some(l) => FormOf(l)
    case None =>
      if current.role == Captain then
        prev.(captainId := Some(current.id), captainName := Some(current.name), departureTime := Some(nowStamp))
      else
        prev.(departureTime := Some(nowStamp))
  }

  /** A draft may be saved once ship, captain, engineer and departure time
      are all filled in. */
  predicate CanSaveDraft(f: LogForm)
  {
    Truthy(f.shipName) && Truthy(f.captainId) && Truthy(f.engineerId) && Truthy(f.departureTime)
  }

  /** Submitting additionally needs an arrival time. */
  predicate CanSubmit(f: LogForm)
  {
    CanSaveDraft(f) && Truthy(f.arrivalTime)
  }

  /** The crew checkbox: removes a selected crew id (every occurrence) or
      appends an unselected one; nothing else in the form changes. */
  function ToggleCrew(f: LogForm, crewId: string): (g: LogForm)
    ensures g.crewIds.Some?
    ensures crewId in CrewIdsOf(f) ==> crewId !in g.crewIds.value
    ensures crewId !in CrewIdsOf(f) ==> g.crewIds.value == CrewIdsOf(f) + [crewId]
    ensures forall y :: y != crewId ==> (y in g.crewIds.value <==> y in CrewIdsOf(f))
    ensures g.(crewIds := f.crewIds) == f
  {
    f.(crewIds := Some(Toggle(CrewIdsOf(f), crewId)))
  }

  /** Ticking the same crew member twice restores the selection's members,
      and restores it exactly when that member was not selected. */
  lemma ToggleCrewTwice(f: LogForm, crewId: string)
    ensures forall y :: y in CrewIdsOf(ToggleCrew(ToggleCrew(f, crewId), crewId)) <==> y in CrewIdsOf(f)
    ensures crewId !in CrewIdsOf(f) ==>
      CrewIdsOf(ToggleCrew(ToggleCrew(f, crewId), crewId)) == CrewIdsOf(f)
  {
    ToggleTwiceMembership(CrewIdsOf(f), crewId);
    if crewId !in CrewIdsOf(f) {
      ToggleTwiceRestores(CrewIdsOf(f), crewId);
    }
  }

  function IsCaptain(u: User): bool { u.role == Captain }
  function IsChiefEngineer(u: User): bool { u.role == ChiefEngineer }
  function IsCrew(u: User): bool { u.role == Crew }

  /** The captain picker: exactly the users with the captain role. */
  function CaptainChoices(users: seq<User>): (r: seq<User>)
    ensures forall u :: u in r <==> u in users && u.role == Captain
  {
    Filter(users, IsCaptain)
  }

  function EngineerChoices(users: seq<User>): (r: seq<User>)
    ensures forall u :: u in r <==> u in users && u.role == ChiefEngineer
  {
    Filter(users, IsChiefEngineer)
  }

  function CrewChoices(users: seq<User>): (r: seq<User>)
    ensures forall u :: u in r <==> u in users && u.role == Crew
  {
    Filter(users, IsCrew)
  }

  /** `users.find(u => u.id === id)?.name || ''`: the name of the first
      user with the id, or the empty string when no user has it. */
  function NameById(users: seq<User>, id: string): (r: string)
    ensures !HasId(users, UserId, id) ==> r == ""
    ensures HasId(users, UserId, id) ==>
      var i := IndexOfId(users, UserId, id).value;
      r == users[i].name && users[i].id == id
  {
    match IndexOfId(users, UserId, id)
    case None => ""
    case Some(i) => users[i].name
  }

  /** The crew names, resolved one by one from the ids. */
  function ResolveNames(users: seq<User>, ids: seq<string>): (r: seq<string>)
    ensures |r| == |ids|
    ensures forall i :: 0 <= i < |ids| ==> r[i] == NameById(users, ids[i])
  {
    seq(|ids|, i requires 0 <= i < |ids| => NameById(users, ids[i]))
  }

  /** The save handler. `None` when the form is not draft-saveable, whatever
      status was requested; otherwise the record handed to the application:
      the form's id and creation time when present (else the fresh id and
      the current time), names looked up from `users`, missing text and
      numbers defaulted, and the requested status. */
  function HandleSave(f: LogForm, status: LogStatus, users: seq<User>, nowMillis: nat, nowIso: string)
    : (r: Option<OperationLog>)
    ensures r.None? <==> !CanSaveDraft(f)
    ensures r.Some? ==>
      && r.value.id == (if Truthy(f.id) then f.id.value else NumberedId("log-", nowMillis))
      && r.value.createdAt == (if Truthy(f.createdAt) then f.createdAt.value else nowIso)
    ensures r.Some? ==>
      && r.value.shipName == f.shipName.value != ""
      && r.value.captainId == f.captainId.value != ""
      && r.value.engineerId == f.engineerId.value != ""
      && r.value.departureTime == f.departureTime.value != ""
    ensures r.Some? ==>
      && r.value.captainName == NameById(users, r.value.captainId)
      && r.value.engineerName == NameById(users, r.value.engineerId)
      && r.value.crewIds == CrewIdsOf(f)
      && |r.value.crewNames| == |r.value.crewIds|
      && forall i :: 0 <= i < |r.value.crewIds| ==> r.value.crewNames[i] == NameById(users, r.value.crewIds[i])
    ensures r.Some? ==>
      && (r.value.arrivalTime == "" <==> !Truthy(f.arrivalTime))
      && (Truthy(f.arrivalTime) ==> r.value.arrivalTime == f.arrivalTime.value)
      && (f.passengerCount.Some? ==> r.value.passengerCount == f.passengerCount.value)
      && (f.passengerCount.None? ==> r.value.passengerCount == 0)
      && (f.fuelLevel.Some? ==> r.value.fuelLevel == f.fuelLevel.value)
      && (f.fuelLevel.None? ==> r.value.fuelLevel == 0)
      && r.value.memo == (if Truthy(f.memo) then f.memo.value else "")
      && r.value.status == status
      && WithoutLocations(r.value)
  {
    if !CanSaveDraft(f) then None
    else
      var crewIds := CrewIdsOf(f);
      Some(OperationLog(
        OrElse(f.id, NumberedId("log-", nowMillis)),
        f.shipName.value,
        f.captainId.value,
        NameById(users, f.captainId.value),
        f.engineerId.value,
        NameById(users, f.engineerId.value),
        crewIds,
        ResolveNames(users, crewIds),
        f.departureTime.value,
        OrElse(f.arrivalTime, ""),
        NumberOrZero(f.passengerCount),
        NumberOrZero(f.fuelLevel),
        OrElse(f.memo, ""),
        status,
        OrElse(f.createdAt, nowIso),
        None,
        None))
  }

  /** The draft button: disabled until the form is draft-saveable; when
      enabled it saves the form as a draft. */
  function DraftButton(f: LogForm, users: seq<User>, nowMillis: nat, nowIso: string): (r: Option<OperationLog>)
    ensures r.Some? <==> CanSaveDraft(f)
    ensures r.Some? ==> r.value.status == Draft && r.value.departureTime != ""
  {
    if CanSaveDraft(f) then HandleSave(f, Draft, users, nowMillis, nowIso) else None
  }

  /** The submit button: disabled until the form also has an arrival time,
      so every record it produces is completed and has arrived. */
  function SubmitButton(f: LogForm, users: seq<User>, nowMillis: nat, nowIso: string): (r: Option<OperationLog>)
    ensures r.Some? <==> CanSaveDraft(f) && f.arrivalTime.Some? && f.arrivalTime.value != ""
    ensures r.Some? ==> r.value.status == Completed && r.value.arrivalTime != ""
    ensures r.Some? ==> r.value.arrivalTime == f.arrivalTime.value
  {
    if CanSubmit(f) then HandleSave(f, Completed, users, nowMillis, nowIso) else None
  }

  /** Whatever the submit button saves, the draft button would save with
      the draft status instead: the two differ in the status only. */
  lemma SubmitIsDraftCompleted(f: LogForm, users: seq<User>, nowMillis: nat, nowIso: string)
    requires SubmitButton(f, users, nowMillis, nowIso).Some?
    ensures DraftButton(f, users, nowMillis, nowIso).Some?
    ensures SubmitButton(f, users, nowMillis, nowIso).value
      == DraftButton(f, users, nowMillis, nowIso).value.(status := Completed)
  {
  }

  /** Editing a log and saving it unchanged reproduces the log, except that
      the display names are re-resolved from the current users and the
      (undeclared) location fields are dropped. */
  lemma ResaveEditedLog(l: OperationLog, users: seq<User>, nowMillis: nat, nowIso: string)
    requires l.id != "" && l.createdAt != ""
    requires l.shipName != "" && l.captainId != "" && l.engineerId != "" && l.departureTime != ""
    ensures HandleSave(FormOf(l), l.status, users, nowMillis, nowIso) == Some(l.(
      captainName := NameById(users, l.captainId),
      engineerName := NameById(users, l.engineerId),
      crewNames := ResolveNames(users, l.crewIds),
      departureLocation := None,
      arrivalLocation := None))
  {
  }

  /** A saved record is a fixed point: opening it again and re-saving with
      the same status and users yields the same record. */
  lemma SaveIsStable(f: LogForm, status: LogStatus, users: seq<User>, nowMillis: nat, nowIso: string, later: nat, laterIso: string)
    requires CanSaveDraft(f)
    requires Truthy(f.createdAt)
    ensures var l := HandleSave(f, status, users, nowMillis, nowIso).value;
      HandleSave(FormOf(l), status, users, later, laterIso) == Some(l)
  {
    var l := HandleSave(f, status, users, nowMillis, nowIso).value;
    assert l.id != "" by {
      if !Truthy(f.id) {
        assert StartsWith(l.id, "log-");
      }
    }
    ResaveEditedLog(l, users, later, laterIso);
    assert ResolveNames(users, l.crewIds) == l.crewNames;
  }

  /** A captain starting a new voyage can save it as a draft once the ship
      and engineer are chosen: the record carries the captain's own id, the
      opening time as its departure, and the ship and engineer chosen before. */
  lemma CaptainNewVoyageDraft(prev: LogForm, current: User, users: seq<User>, nowStamp: string, nowMillis: nat, nowIso: string)
    requires current.role == Captain && current.id != "" && nowStamp != ""
    requires Truthy(prev.shipName) && Truthy(prev.engineerId)
    ensures var r := DraftButton(OpenForm(prev, current, None, nowStamp), users, nowMillis, nowIso);
      && r.Some?
      && r.value.captainId == current.id
      && r.value.captainName == NameById(users, current.id)
      && r.value.departureTime == nowStamp
      && r.value.shipName == prev.shipName.value
      && r.value.engineerId == prev.engineerId.value
      && r.value.status == Draft
  {
  }

  /** Opening an existing log for editing and saving it with its own status
      gives back the log, names re-resolved and locations dropped. */
  lemma OpenEditedThenSave(prev: LogForm, current: User, l: OperationLog, users: seq<User>, nowStamp: string, nowMillis: nat, nowIso: string)
    requires l.id != "" && l.createdAt != ""
    requires l.shipName != "" && l.captainId != "" && l.engineerId != "" && l.departureTime != ""
    ensures HandleSave(OpenForm(prev, current, Some(l), nowStamp), l.status, users, nowMillis, nowIso) == Some(l.(
      captainName := NameById(users, l.captainId),
      engineerName := NameById(users, l.engineerId),
      crewNames := ResolveNames(users, l.crewIds),
      departureLocation := None,
      arrivalLocation := None))
  {
  }
}
