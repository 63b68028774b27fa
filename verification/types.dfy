/** The record types shared by every page of the voyage-log application:
    users, ships, operation (voyage) logs, the notification configuration and
    the page views. Strings are sequences of characters. */
module Types {

  /** Absent or present value; models optional TypeScript fields (`x?: T`). */
  datatype Option<+T> = None | Some(value: T)

  /** The four staff roles. The source encodes them as Korean labels. */
  datatype UserRole = Admin | Captain | ChiefEngineer | Crew

  /** The label a role is stored and displayed as. */
  function RoleLabel(r: UserRole): string
  {
    match r
    case Admin => "관리자"
    case Captain => "선장"
    case ChiefEngineer => "기관장"
    case Crew => "승무원"
  }

  /** Reads a stored label back; any other text names no role. */
  function RoleFromLabel(s: string): (r: Option<UserRole>)
    ensures r.Some? ==> RoleLabel(r.value) == s
  {
    if s == "관리자" then Some(Admin)
    else if s == "선장" then Some(Captain)
    else if s == "기관장" then Some(ChiefEngineer)
    else if s == "승무원" then Some(Crew)
    else None
  }

  /** Labels identify roles: reading back a label yields the role, so no two
      roles share a label. */
  lemma RoleLabelRoundTrip(r: UserRole)
    ensures RoleFromLabel(RoleLabel(r)) == Some(r)
  {
  }

  /** A staff member. Only the notification chat id is optional. */
  datatype User = User(
    id: string,
    name: string,
    role: UserRole,
    phone: string,
    joinDate: string,
    telegramChatId: Option<string>)

  datatype Ship = Ship(id: string, name: string, capacity: int)

  /** Key accessors, for the id-based lookups shared by all collections. */
  function UserId(u: User): string { u.id }
  function ShipId(s: Ship): string { s.id }
  function LogId(l: OperationLog): string { l.id }

  /** A log is either a saved draft or a submitted (completed) record. */
  datatype LogStatus = Draft | Completed

  function StatusText(s: LogStatus): string
  {
    match s
    case Draft => "draft"
    case Completed => "completed"
  }

  function StatusFromText(s: string): (r: Option<LogStatus>)
    ensures r.Some? ==> StatusText(r.value) == s
  {
    if s == "draft" then Some(Draft)
    else if s == "completed" then Some(Completed)
    else None
  }

  lemma StatusTextRoundTrip(s: LogStatus)
    ensures StatusFromText(StatusText(s)) == Some(s)
  {
  }

  /** One voyage record. The declared record type has no location fields;
      the dashboard nevertheless reads `departureLocation` and
      `arrivalLocation`, so they are carried here as optional values that no
      code path of the application ever sets. */
  datatype OperationLog = OperationLog(
    id: string,
    shipName: string,
    captainId: string,
    captainName: string,
    engineerId: string,
    engineerName: string,
    crewIds: seq<string>,
    crewNames: seq<string>,
    departureTime: string,
    arrivalTime: string,
    passengerCount: int,
    fuelLevel: int,
    memo: string,
    status: LogStatus,
    createdAt: string,
    departureLocation: Option<string>,
    arrivalLocation: Option<string>)

  /** True when the record has no location data, which holds for every log
      the application itself constructs. */
  predicate WithoutLocations(l: OperationLog)
  {
    l.departureLocation.None? && l.arrivalLocation.None?
  }

  datatype TelegramConfig = TelegramConfig(botToken: string, recipients: seq<string>)

  /** The six pages of the application. */
  datatype PageView = DashboardView | UserMgmt | ShipMgmt | LogEntryView | LogListView | TelegramSettingsView

  /** The identifier a view is addressed by in navigation. */
  function ViewId(v: PageView): string
  {
    match v
    case DashboardView => "dashboard"
    case UserMgmt => "user-mgmt"
    case ShipMgmt => "ship-mgmt"
    case LogEntryView => "log-entry"
    case LogListView => "log-list"
    case TelegramSettingsView => "telegram-settings"
  }

  function ViewFromId(s: string): (r: Option<PageView>)
    ensures r.Some? ==> ViewId(r.value) == s
  {
    if s == "dashboard" then Some(DashboardView)
    else if s == "user-mgmt" then Some(UserMgmt)
    else if s == "ship-mgmt" then Some(ShipMgmt)
    else if s == "log-entry" then Some(LogEntryView)
    else if s == "log-list" then Some(LogListView)
    else if s == "telegram-settings" then Some(TelegramSettingsView)
    else None
  }

  lemma ViewIdRoundTrip(v: PageView)
    ensures ViewFromId(ViewId(v)) == Some(v)
  {
  }
}
