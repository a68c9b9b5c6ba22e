/**
 The `interactionCreate` handler of the leave bot as a pure step function
 over the pending table and the store, plus the `messageCreate` handler
 that only shows the entry prompt.

 Each inbound event is handled on its own: the handler looks up the pending
 entry of the user the event comes from, checks what earlier steps must have
 left there, and either updates that entry, writes the store, or replies
 with an error. Nothing ever removes a pending entry.
 */
module Workflow {
  import opened LeaveData
  import opened JsParseInt

  /** The role menu's options: the member's roles other than the guild's
      default role (whose id is the guild id), in the member's order. */
  function OfferedRoles(roles: seq<Role>, guildId: string): (options: seq<RoleOption>)
    ensures |options| <= |roles|
    ensures forall o :: o in options ==> o.value != guildId
    ensures forall o :: o in options <==>
      exists r :: r in roles && r.id != guildId && o == RoleOption(r.name, r.id)
  {
    if roles == [] then []
    else
      var rest := OfferedRoles(roles[1..], guildId);
      assert forall r :: r in roles <==> r == roles[0] || r in roles[1..];
      if roles[0].id != guildId then [RoleOption(roles[0].name, roles[0].id)] + rest else rest
  }

  /** The menu is empty exactly when every role the member holds is the
      guild's default role. */
  lemma NoOfferedRolesIff(roles: seq<Role>, guildId: string)
    ensures OfferedRoles(roles, guildId) == [] <==> forall r :: r in roles ==> r.id == guildId
  {
    var options := OfferedRoles(roles, guildId);
    if options != [] {
      assert options[0] in options;
    }
    forall r | r in roles && r.id != guildId
      ensures options != []
    {
      assert RoleOption(r.name, r.id) in options;
    }
  }

  /** The custom id of the duration field for a leave type: the minutes field
      for "minutes", the days field for every other value. */
  function DurationFieldId(vacationType: string): (id: string)
    ensures id == MinutesFieldId || id == DaysFieldId
    ensures id == MinutesFieldId <==> vacationType == "minutes"
  {
    if vacationType == "minutes" then MinutesFieldId else DaysFieldId
  }

  /** `select_vacation_type`: start (or restart) the user's request with the
      chosen type, then offer the member's roles, or report that there are
      none. The pending entry is written before the roles are looked at. */
  function SelectVacationType(s: State, user: UserId, values: seq<string>, guildId: string, roles: seq<Role>): (r: Outcome)
    // the entry is restarted with the chosen type and no role, whatever it held
    ensures user in r.state.pending && r.state.pending[user] == PendingRequest(First(values), None)
    ensures r.state.pending - {user} == s.pending - {user}
    ensures r.state.store == s.store
    // the error comes exactly when the member holds only the default role
    ensures r.response == NoRolesError <==> forall role :: role in roles ==> role.id == guildId
    ensures r.response != NoRolesError ==> r.response == ShowRoleMenu(OfferedRoles(roles, guildId))
  {
    NoOfferedRolesIff(roles, guildId);
    var pending := s.pending[user := PendingRequest(First(values), None)];
    var options := OfferedRoles(roles, guildId);
    if |options| == 0 then Outcome(State(pending, s.store), NoRolesError)
    else Outcome(State(pending, s.store), ShowRoleMenu(options))
  }

  /** `select_role`: record the chosen role on a request that has a type,
      and show the form with the duration field for that type. */
  function SelectRole(s: State, user: UserId, values: seq<string>): (r: Outcome)
    // without a truthy type on record the selection is refused and changes nothing
    ensures r.response == TypeNotChosenError <==> user !in s.pending || !Truthy(s.pending[user].vacationType)
    ensures r.response == TypeNotChosenError ==> r.state == s
    // otherwise the type stays, the first value becomes the role, nothing else changes
    ensures r.response != TypeNotChosenError ==>
      && user in s.pending && user in r.state.pending
      && r.state.pending[user].vacationType == s.pending[user].vacationType
      && r.state.pending[user].selectedRoleId == First(values)
      && r.state.pending - {user} == s.pending - {user}
      && r.state.store == s.store
      && r.response == ShowForm(DurationFieldId(s.pending[user].vacationType.value))
  {
    if user !in s.pending || !Truthy(s.pending[user].vacationType) then Outcome(s, TypeNotChosenError)
    else
      var request := s.pending[user];
      var pending := s.pending[user := request.(selectedRoleId := First(values))];
      Outcome(State(pending, s.store), ShowForm(DurationFieldId(request.vacationType.value)))
  }

  /** The modal submission: with a type and a role on record, read the
      duration field for the type and the reason, and file the request when
      the duration parses to a positive number. A field the form does not
      carry makes `getTextInputValue` throw, which the handler's catch turns
      into a generic error reply. */
  function SubmitForm(s: State, user: UserId, fields: map<string, string>): (r: Outcome)
    // a request without a truthy type and role is refused as incomplete
    ensures r.response == IncompleteDataError <==>
      user !in s.pending || !Truthy(s.pending[user].vacationType) || !Truthy(s.pending[user].selectedRoleId)
    // every reply but success leaves the state as it was
    ensures r.response != Submitted ==> r.state == s
    ensures r.response in {IncompleteDataError, HandlerError, InvalidDurationError, Submitted}
    // success files exactly the record built from the entry and the form, for a positive duration
    ensures r.response == Submitted ==>
      && user in s.pending
      && var request := s.pending[user];
      && request.vacationType.Some? && request.selectedRoleId.Some?
      && var fieldId := if request.vacationType.value == "minutes" then MinutesFieldId else DaysFieldId;
      && fieldId in fields && ReasonFieldId in fields
      && var duration := ParseInt(fields[fieldId]);
      && duration.Int? && duration.value > 0
      && r.state.pending == s.pending
      && r.state.store == s.store[user := LeaveRecord(user, request.selectedRoleId.value, duration.value,
                                                      fields[ReasonFieldId], request.vacationType.value,
                                                      PendingStatus)]
  {
    if user !in s.pending then Outcome(s, IncompleteDataError)
    else
      var request := s.pending[user];
      if !Truthy(request.vacationType) || !Truthy(request.selectedRoleId) then Outcome(s, IncompleteDataError)
      else
        var vacationType := request.vacationType.value;
        var fieldId := DurationFieldId(vacationType);
        if fieldId !in fields || ReasonFieldId !in fields then Outcome(s, HandlerError)
        else
          var duration := ParseInt(fields[fieldId]);
          if duration.NaN? || duration.value <= 0 then Outcome(s, InvalidDurationError)
          else
            var rec := LeaveRecord(user, request.selectedRoleId.value, duration.value,
                                   fields[ReasonFieldId], vacationType, PendingStatus);
            Outcome(State(s.pending, s.store[user := rec]), Submitted)
  }

  /** One inbound event. Events with other custom ids get no reply. */
  function Step(s: State, e: Event): (r: Outcome)
    // only the acting user's entries can change
    ensures r.state.pending - {e.user} == s.pending - {e.user}
    ensures r.state.store - {e.user} == s.store - {e.user}
    // pending entries are never removed, and only menu selections touch them
    ensures s.pending.Keys <= r.state.pending.Keys
    ensures !e.MenuSelected? ==> r.state.pending == s.pending
    // the store changes only on a successful submission, and keeps its shape
    ensures r.response != Submitted ==> r.state.store == s.store
    ensures WellFormedStore(s.store) ==> WellFormedStore(r.state.store)
    // a rejected event changes nothing, so the user can simply retry
    ensures IsRejection(r.response) ==> r.state == s
    // a filed request is built from the user's complete pending entry
    ensures r.response == Submitted ==>
      && e.FormSubmitted? && e.user in s.pending
      && r.state.pending == s.pending
      && e.user in r.state.store
      && WellFormedRecord(e.user, r.state.store[e.user])
      && Some(r.state.store[e.user].vacationType) == s.pending[e.user].vacationType
      && Some(r.state.store[e.user].roleId) == s.pending[e.user].selectedRoleId
  {
    match e
    case ChatMessage(_, content) =>
      Outcome(s, if content == StartCommand then ShowEntryPrompt else NoResponse)
    case ButtonPressed(_, customId) =>
      Outcome(s, if customId == EntryButtonId then ShowTypeMenu else NoResponse)
    case MenuSelected(user, customId, values, guildId, roles) =>
      if customId == TypeMenuId then SelectVacationType(s, user, values, guildId, roles)
      else if customId == RoleMenuId then SelectRole(s, user, values)
      else Outcome(s, NoResponse)
    case FormSubmitted(user, customId, fields) =>
      if customId == FormId then SubmitForm(s, user, fields)
      else Outcome(s, NoResponse)
  }

  /** The users a sequence of events comes from. */
  function Actors(events: seq<Event>): set<UserId> {
    set i | 0 <= i < |events| :: events[i].user
  }

  /** Two maps that agree outside `x`, and a third that agrees with the
      second outside `y`: the first and the third agree outside both. */
  lemma AgreeOutside<K, V>(a: map<K, V>, b: map<K, V>, c: map<K, V>, x: set<K>, y: set<K>)
    requires b - x == a - x
    requires c - y == b - y
    ensures c - (x + y) == a - (x + y)
  {
    forall k | k !in x + y
      ensures (k in c <==> k in a) && (k in c ==> c[k] == a[k])
    {
      assert k in c - y <==> k in c;
      assert k in b - y <==> k in b;
      assert k in b - x <==> k in b;
      assert k in a - x <==> k in a;
      if k in c {
        assert (c - y)[k] == (b - y)[k];
        assert (b - x)[k] == (a - x)[k];
      }
    }
  }

  /** Events handled one after the other, each against the state the previous
      one left. */
  function Run(s: State, events: seq<Event>): (t: Trace)
    ensures |t.responses| == |events|
    ensures s.pending.Keys <= t.state.pending.Keys
    ensures s.store.Keys <= t.state.store.Keys
    ensures WellFormedStore(s.store) ==> WellFormedStore(t.state.store)
    ensures t.state.pending - Actors(events) == s.pending - Actors(events)
    ensures t.state.store - Actors(events) == s.store - Actors(events)
    decreases |events|
  {
    if events == [] then Trace(s, [])
    else
      var first := Step(s, events[0]);
      var rest := Run(first.state, events[1..]);
      assert Actors(events) == {events[0].user} + Actors(events[1..]) by {
        assert forall i :: 0 < i < |events| ==> events[i] == events[1..][i - 1];
      }
      AgreeOutside(s.pending, first.state.pending, rest.state.pending, {events[0].user}, Actors(events[1..]));
      AgreeOutside(s.store, first.state.store, rest.state.store, {events[0].user}, Actors(events[1..]));
      Trace(rest.state, [first.response] + rest.responses)
  }
}
