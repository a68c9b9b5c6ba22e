/**
 The data the leave-request bot handles: the inbound chat events, the
 partially built request kept per user while the workflow runs, the completed
 record kept in the store, and the replies the bot sends back.

 JavaScript values that can be `undefined` are `Option`s; the handler tests
 them for truthiness, which for a string means "defined and not empty".
 */
module LeaveData {

  datatype Option<+T> = None | Some(value: T)

  /** JavaScript truthiness of a value that is a string or `undefined`. */
  predicate Truthy(v: Option<string>) {
    v.Some? && v.value != ""
  }

  /** `values[0]` of a menu selection: `undefined` when nothing was selected. */
  function First(values: seq<string>): Option<string> {
    if |values| > 0 then Some(values[0]) else None
  }

  type UserId = string

  /** The custom ids and texts the handler compares against. */
  const StartCommand := "!vacation"
  const EntryButtonId := "طلب_اجازة"
  const TypeMenuId := "select_vacation_type"
  const RoleMenuId := "select_role"
  const FormId := "نموذج_الاجازة"
  const MinutesFieldId := "مدة_الإجازة_دقائق"
  const DaysFieldId := "مدة_الإجازة_أيام"
  const ReasonFieldId := "سبب_الإجازة"
  /** The status every stored request starts with ("pending"). */
  const PendingStatus := "قيد الانتظار"

  /** An entry of the pending table: `{vacationType, selectedRoleId?}`. */
  datatype PendingRequest = PendingRequest(vacationType: Option<string>, selectedRoleId: Option<string>)

  /** A completed request as written to the store. */
  datatype LeaveRecord = LeaveRecord(
    userId: UserId,
    roleId: string,
    duration: int,
    reason: string,
    vacationType: string,
    status: string)

  /** A guild role held by the member who interacts. */
  datatype Role = Role(id: string, name: string)

  /** An option of the role menu, `{label: role.name, value: role.id}`; the label is `text` here. */
  datatype RoleOption = RoleOption(text: string, value: string)

  /** The inbound events: a chat message, a button press, a menu selection
      (with the guild and the member's roles it comes from) and a modal form
      submission (with its text fields by custom id). */
  datatype Event =
    | ChatMessage(user: UserId, content: string)
    | ButtonPressed(user: UserId, customId: string)
    | MenuSelected(user: UserId, customId: string, values: seq<string>, guildId: string, memberRoles: seq<Role>)
    | FormSubmitted(user: UserId, customId: string, fields: map<string, string>)

  /** What the bot sends back, as an abstract tag of the rendered message. */
  datatype Response =
    | NoResponse
    | ShowEntryPrompt
    | ShowTypeMenu
    | ShowRoleMenu(options: seq<RoleOption>)
    | NoRolesError
    | TypeNotChosenError
    | ShowForm(durationFieldId: string)
    | IncompleteDataError
    | InvalidDurationError
    | HandlerError
    | Submitted

  /** Error replies after which nothing has changed, so the user can retry. */
  predicate IsRejection(r: Response) {
    r.TypeNotChosenError? || r.IncompleteDataError? || r.InvalidDurationError? || r.HandlerError?
  }

  /** The pending table and the store of completed requests. */
  datatype State = State(pending: map<UserId, PendingRequest>, store: map<UserId, LeaveRecord>)

  /** The new state after one event and the reply to it. */
  datatype Outcome = Outcome(state: State, response: Response)

  /** The state after a sequence of events and the replies, one per event. */
  datatype Trace = Trace(state: State, responses: seq<Response>)

  /** What a stored record always satisfies: it is filed under its own user,
      names a role and a leave type, has a positive duration and the initial
      status. */
  predicate WellFormedRecord(u: UserId, rec: LeaveRecord) {
    && rec.userId == u
    && rec.roleId != ""
    && rec.vacationType != ""
    && rec.duration > 0
    && rec.status == PendingStatus
  }

  predicate WellFormedStore(store: map<UserId, LeaveRecord>) {
    forall u :: u in store ==> WellFormedRecord(u, store[u])
  }
}
