/**
 What the leave bot's handler guarantees, step by step and over whole
 conversations: how each menu selection and form submission changes the
 pending table and the store, which events are rejected without effect, and
 what a complete request leaves behind.
 */
module WorkflowProperties {
  import opened LeaveData
  import opened JsParseInt
  import opened Workflow
  import ParseIntProperties

  /** The role menu keeps the member's order: filtering a concatenation is
      the concatenation of the filtered parts. */
  lemma {:induction false} OfferedRolesAppend(a: seq<Role>, b: seq<Role>, guildId: string)
    ensures OfferedRoles(a + b, guildId) == OfferedRoles(a, guildId) + OfferedRoles(b, guildId)
    decreases |a|
  {
    if a == [] {
      assert a + b == b;
    } else {
      assert (a + b)[0] == a[0];
      assert (a + b)[1..] == a[1..] + b;
      OfferedRolesAppend(a[1..], b, guildId);
    }
  }

  /** The two opening steps only display something: the `!vacation` message
      brings up the entry prompt, the entry button brings up the type menu,
      and neither touches the pending table or the store. */
  lemma OpeningStepsChangeNothing(s: State, u: UserId, text: string)
    ensures var r := Step(s, ChatMessage(u, text));
      && r.state == s
      && (r.response == ShowEntryPrompt <==> text == StartCommand)
      && (r.response != ShowEntryPrompt ==> r.response == NoResponse)
    ensures var r := Step(s, ButtonPressed(u, text));
      && r.state == s
      && (r.response == ShowTypeMenu <==> text == EntryButtonId)
      && (r.response != ShowTypeMenu ==> r.response == NoResponse)
  {
  }

  /** Choosing a leave type (re)starts the user's request: the entry holds
      exactly the chosen type and no role, whatever was there before; other
      users and the store are untouched; the reply is the role menu, or the
      "no roles" error when the member holds only the default role, in
      which case the new entry stays in place all the same. */
  lemma SelectTypeRestartsRequest(s: State, u: UserId, values: seq<string>, guildId: string, roles: seq<Role>)
    ensures var r := Step(s, MenuSelected(u, TypeMenuId, values, guildId, roles));
      && u in r.state.pending
      && r.state.pending[u] == PendingRequest(First(values), None)
      && r.state.pending - {u} == s.pending - {u}
      && r.state.store == s.store
      && (r.response == NoRolesError <==> forall role :: role in roles ==> role.id == guildId)
      && (r.response != NoRolesError ==> r.response == ShowRoleMenu(OfferedRoles(roles, guildId)))
  {
    NoOfferedRolesIff(roles, guildId);
  }

  /** Choosing a role before a leave type is on record is rejected and
      changes nothing. */
  lemma SelectRoleWithoutType(s: State, u: UserId, values: seq<string>, guildId: string, roles: seq<Role>)
    requires u !in s.pending || !Truthy(s.pending[u].vacationType)
    ensures Step(s, MenuSelected(u, RoleMenuId, values, guildId, roles)) == Outcome(s, TypeNotChosenError)
  {
  }

  /** Choosing a role on a request with a type keeps the type, records the
      first selected value as the role, and shows the form whose duration
      field matches the type. */
  lemma SelectRoleRecordsRole(s: State, u: UserId, values: seq<string>, guildId: string, roles: seq<Role>)
    requires u in s.pending && Truthy(s.pending[u].vacationType)
    ensures var r := Step(s, MenuSelected(u, RoleMenuId, values, guildId, roles));
      && u in r.state.pending
      && r.state.pending[u].vacationType == s.pending[u].vacationType
      && r.state.pending[u].selectedRoleId == First(values)
      && r.state.pending - {u} == s.pending - {u}
      && r.state.store == s.store
      && r.response == ShowForm(DurationFieldId(s.pending[u].vacationType.value))
  {
  }

  /** A submission without a type and a role on record is rejected and
      changes nothing. */
  lemma SubmitIncompleteRequest(s: State, u: UserId, fields: map<string, string>)
    requires u !in s.pending || !Truthy(s.pending[u].vacationType) || !Truthy(s.pending[u].selectedRoleId)
    ensures Step(s, FormSubmitted(u, FormId, fields)) == Outcome(s, IncompleteDataError)
  {
  }

  /** With a complete request and both fields present, the duration alone
      decides: the request is filed exactly when `parseInt` of the field for
      the type is a positive number, and then the user's record is replaced
      by one built from the pending entry and the form, the pending entry
      staying as it was; otherwise nothing changes. The reason is taken as
      typed, empty or not. */
  lemma SubmitDurationDecides(s: State, u: UserId, fields: map<string, string>)
    requires u in s.pending
    requires Truthy(s.pending[u].vacationType) && Truthy(s.pending[u].selectedRoleId)
    requires DurationFieldId(s.pending[u].vacationType.value) in fields && ReasonFieldId in fields
    ensures
      var request := s.pending[u];
      var duration := ParseInt(fields[DurationFieldId(request.vacationType.value)]);
      var r := Step(s, FormSubmitted(u, FormId, fields));
      && (r.response == Submitted <==> duration.Int? && duration.value > 0)
      && (r.response != Submitted ==> r == Outcome(s, InvalidDurationError))
      && (r.response == Submitted ==>
            && r.state.pending == s.pending
            && r.state.store == s.store[u := LeaveRecord(u, request.selectedRoleId.value, duration.value,
                                                         fields[ReasonFieldId], request.vacationType.value,
                                                         PendingStatus)])
  {
  }

  /** With a complete request, a form that lacks the duration field for the
      type or the reason field makes reading it throw: the handler answers
      with its generic error and nothing changes, whatever the other field
      holds. */
  lemma SubmitMissingField(s: State, u: UserId, fields: map<string, string>)
    requires u in s.pending
    requires Truthy(s.pending[u].vacationType) && Truthy(s.pending[u].selectedRoleId)
    ensures
      var missing := DurationFieldId(s.pending[u].vacationType.value) !in fields || ReasonFieldId !in fields;
      var r := Step(s, FormSubmitted(u, FormId, fields));
      && (r.response == HandlerError <==> missing)
      && (missing ==> r.state == s)
  {
  }

  /** "0", "-5" and "abc" are refused as durations and leave the state as
      it was. */
  lemma SubmitRejectsBadDurations(s: State, u: UserId, fields: map<string, string>)
    requires u in s.pending
    requires Truthy(s.pending[u].vacationType) && Truthy(s.pending[u].selectedRoleId)
    requires DurationFieldId(s.pending[u].vacationType.value) in fields && ReasonFieldId in fields
    requires fields[DurationFieldId(s.pending[u].vacationType.value)] in ["0", "-5", "abc"]
    ensures Step(s, FormSubmitted(u, FormId, fields)) == Outcome(s, InvalidDurationError)
  {
  }

  /** "3abc" and " 3" are accepted as a duration of 3. */
  lemma SubmitAcceptsDigitPrefix(s: State, u: UserId, fields: map<string, string>)
    requires u in s.pending
    requires Truthy(s.pending[u].vacationType) && Truthy(s.pending[u].selectedRoleId)
    requires DurationFieldId(s.pending[u].vacationType.value) in fields && ReasonFieldId in fields
    requires fields[DurationFieldId(s.pending[u].vacationType.value)] in ["3abc", " 3"]
    ensures var r := Step(s, FormSubmitted(u, FormId, fields));
      r.response == Submitted && u in r.state.store && r.state.store[u].duration == 3
  {
    var text := fields[DurationFieldId(s.pending[u].vacationType.value)];
    if text == "3abc" {
      ParseIntProperties.ParseIntTrailingLetters();
    } else {
      ParseIntProperties.ParseIntLeadingSpace();
    }
    SubmitDurationDecides(s, u, fields);
  }

  /** Restarting with a new leave type forgets the role chosen before, so a
      form submitted right after the restart is rejected as incomplete. */
  lemma RestartForgetsRole(s: State, u: UserId, values: seq<string>, guildId: string, roles: seq<Role>, fields: map<string, string>)
    ensures
      var s1 := Step(s, MenuSelected(u, TypeMenuId, values, guildId, roles)).state;
      Step(s1, FormSubmitted(u, FormId, fields)) == Outcome(s1, IncompleteDataError)
  {
  }

  /** Filing a request leaves the pending entry in place, so a later
      submission is handled exactly as if the earlier one had never been
      made, and when it is accepted it overwrites the earlier record. */
  lemma ResubmissionOverwrites(s: State, u: UserId, first: map<string, string>, second: map<string, string>)
    requires Step(s, FormSubmitted(u, FormId, first)).response == Submitted
    ensures
      var s1 := Step(s, FormSubmitted(u, FormId, first)).state;
      var again := Step(s1, FormSubmitted(u, FormId, second));
      var alone := Step(s, FormSubmitted(u, FormId, second));
      && again.response == alone.response
      && (again.response == Submitted ==> again.state == alone.state)
  {
    var s1 := Step(s, FormSubmitted(u, FormId, first)).state;
    assert s1.pending == s.pending;
    SubmitIgnoresStore(s, s1, u, second);
  }

  /** A submission is decided by the pending table alone, and on success
      only the submitting user's record differs between two stores. */
  lemma SubmitIgnoresStore(s: State, t: State, u: UserId, fields: map<string, string>)
    requires s.pending == t.pending
    requires t.store - {u} == s.store - {u}
    ensures
      var a := Step(s, FormSubmitted(u, FormId, fields));
      var b := Step(t, FormSubmitted(u, FormId, fields));
      && a.response == b.response
      && (a.response == Submitted ==> a.state == b.state)
  {
    var a := SubmitForm(s, u, fields);
    var b := SubmitForm(t, u, fields);
    if a.response == Submitted {
      assert a.state.store == b.state.store by {
        forall k ensures (k in a.state.store <==> k in b.state.store) && (k in a.state.store ==> a.state.store[k] == b.state.store[k]) {
          if k != u {
            assert k in s.store - {u} <==> k in s.store;
            assert k in t.store - {u} <==> k in t.store;
            if k in s.store {
              assert (s.store - {u})[k] == (t.store - {u})[k];
            }
          }
        }
      }
    }
  }

  /** Handling one event and then a sequence. */
  lemma RunCons(s: State, e: Event, events: seq<Event>)
    ensures
      var first := Step(s, e);
      var rest := Run(first.state, events);
      Run(s, [e] + events) == Trace(rest.state, [first.response] + rest.responses)
  {
  }

  /** Handling a concatenation of event sequences is handling the first
      sequence and then the second from where it left off. */
  lemma {:induction false} RunAppend(s: State, a: seq<Event>, b: seq<Event>)
    ensures
      var first := Run(s, a);
      var second := Run(first.state, b);
      Run(s, a + b) == Trace(second.state, first.responses + second.responses)
    decreases |a|
  {
    if a == [] {
      assert a + b == b;
    } else {
      var e := a[0];
      var o := Step(s, e);
      assert a == [e] + a[1..];
      assert a + b == [e] + (a[1..] + b);
      RunCons(s, e, a[1..]);
      RunCons(s, e, a[1..] + b);
      RunAppend(o.state, a[1..], b);
      var tail := Run(o.state, a[1..]);
      var second := Run(tail.state, b);
      assert [o.response] + (tail.responses + second.responses)
          == ([o.response] + tail.responses) + second.responses;
    }
  }

  /** The events of one complete request: a leave type, a role, and a form
      whose duration field (the one for that type) holds `duration`. */
  function RequestEvents(u: UserId, vacationType: string, roleId: string, guildId: string, roles: seq<Role>,
                         duration: string, reason: string): seq<Event>
  {
    [ MenuSelected(u, TypeMenuId, [vacationType], guildId, roles),
      MenuSelected(u, RoleMenuId, [roleId], guildId, roles),
      FormSubmitted(u, FormId, map[DurationFieldId(vacationType) := duration, ReasonFieldId := reason]) ]
  }

  /** A complete request, from any state: with a non-empty type and role, a
      member holding some role besides the default one, and the decimal text
      of a positive duration, the three steps show the role menu, then the
      form, then file exactly the record built from the inputs, replacing
      any earlier one; the pending entry stays behind, complete. */
  lemma CompleteRequest(s: State, u: UserId, vacationType: string, roleId: string, guildId: string,
                        roles: seq<Role>, duration: nat, reason: string)
    requires vacationType != "" && roleId != "" && duration > 0
    requires exists r :: r in roles && r.id != guildId
    ensures
      var t := Run(s, RequestEvents(u, vacationType, roleId, guildId, roles, ToDecimalString(duration), reason));
      && t.responses == [ShowRoleMenu(OfferedRoles(roles, guildId)), ShowForm(DurationFieldId(vacationType)), Submitted]
      && t.state.store == s.store[u := LeaveRecord(u, roleId, duration, reason, vacationType, PendingStatus)]
      && t.state.pending == s.pending[u := PendingRequest(Some(vacationType), Some(roleId))]
  {
    var events := RequestEvents(u, vacationType, roleId, guildId, roles, ToDecimalString(duration), reason);
    var e1, e2, e3 := events[0], events[1], events[2];
    assert events == [e1, e2, e3];
    var o1 := Step(s, e1);
    SelectTypeRestartsRequest(s, u, [vacationType], guildId, roles);
    var o2 := Step(o1.state, e2);
    SelectRoleRecordsRole(o1.state, u, [roleId], guildId, roles);
    FormFiles(o2.state, u, vacationType, roleId, duration, reason);
    RunThree(s, e1, e2, e3);
  }

  /** Handling three events one after the other. */
  lemma RunThree(s: State, e1: Event, e2: Event, e3: Event)
    ensures
      var o1 := Step(s, e1);
      var o2 := Step(o1.state, e2);
      var o3 := Step(o2.state, e3);
      Run(s, [e1, e2, e3]) == Trace(o3.state, [o1.response, o2.response, o3.response])
  {
    var o1 := Step(s, e1);
    var o2 := Step(o1.state, e2);
    RunCons(o2.state, e3, []);
    RunCons(o1.state, e2, [e3]);
    RunCons(s, e1, [e2, e3]);
    assert [e1, e2, e3] == [e1] + [e2, e3];
    assert [e2, e3] == [e2] + [e3];
    assert [e3] == [e3] + [];
  }

  /** The form step of a complete request: the duration field for the
      recorded type holds the decimal text of a positive number. */
  lemma FormFiles(s: State, u: UserId, vacationType: string, roleId: string, duration: nat, reason: string)
    requires vacationType != "" && roleId != "" && duration > 0
    requires u in s.pending && s.pending[u] == PendingRequest(Some(vacationType), Some(roleId))
    ensures
      var fields := map[DurationFieldId(vacationType) := ToDecimalString(duration), ReasonFieldId := reason];
      Step(s, FormSubmitted(u, FormId, fields)) ==
        Outcome(State(s.pending, s.store[u := LeaveRecord(u, roleId, duration, reason, vacationType, PendingStatus)]),
                Submitted)
  {
    var fields := map[DurationFieldId(vacationType) := ToDecimalString(duration), ReasonFieldId := reason];
    assert fields[DurationFieldId(vacationType)] == ToDecimalString(duration);
    assert fields[ReasonFieldId] == reason;
    ParseIntProperties.ParseIntOfDecimalText(duration, "");
    assert ToDecimalString(duration) + "" == ToDecimalString(duration);
    SubmitDurationDecides(s, u, fields);
  }

  /** A member holding the guild's default role and a role "Member", who
      picks "days", role "Member", and submits "3" with the reason "travel",
      ends with exactly that request on file. */
  lemma DaysRequestScenario(guildId: string)
    requires guildId != "Member"
    ensures
      var roles := [Role(guildId, "@everyone"), Role("Member", "Member")];
      var t := Run(State(map[], map[]), RequestEvents("U1", "days", "Member", guildId, roles, "3", "travel"));
      t.state.store == map["U1" := LeaveRecord("U1", "Member", 3, "travel", "days", PendingStatus)]
  {
    var roles := [Role(guildId, "@everyone"), Role("Member", "Member")];
    assert roles[1] in roles;
    assert ToDecimalString(3) == "3";
    CompleteRequest(State(map[], map[]), "U1", "days", "Member", guildId, roles, 3, "travel");
  }
}
