# Leave-request bot: workflow model

A Dafny model of the leave-request workflow of a Discord bot (`index.js`).
A member asks for leave in three interactions:

1. picks a leave type from a select menu (`select_vacation_type`),
2. picks their current role from a second menu (`select_role`),
3. submits a modal form with a duration and a reason.

Between the interactions the bot keeps a per-user pending table
(`pendingVacationRequests`). A completed request goes into the store
(`vacationData`), keyed by user id.

The model has five modules:

- `JsParseInt` (`parse_int.dfy`) is the ECMAScript `parseInt` the handler
  applies to the typed duration. It follows section 19.2.5 of ECMA-262 with
  the radix argument omitted: leading white space, an optional sign, a
  `0x`/`0X` prefix that selects radix 16, and then the longest digit prefix.
  The result is NaN when that prefix is empty.
- `LeaveData` (`leave_data.dfy`) holds the data: events, pending entries,
  stored records, role options, replies and the custom-id constants.
  Values that JavaScript may leave `undefined` are `Option`s. `Truthy`
  models the handler's `!x` tests.
- `Workflow` (`workflow.dfy`) is the handler as a pure function
  `Step(state, event) -> (state', reply)`, with one function per branch.
  `Run` applies `Step` to a sequence of events.
- `ParseIntProperties` (`parse_int_properties.dfy`) and `WorkflowProperties`
  (`workflow_properties.dfy`) hold the lemmas that relate several calls.
  The two lemmas that characterise the trimming and digit-reading steps of
  `parseInt`, `TrimStartSpec` and `LeadingDigitsSpec`, sit next to those
  functions in `JsParseInt`. `NoOfferedRolesIff` sits next to
  `OfferedRoles` in `Workflow`.

The model follows the code as written; in particular:

- A successful submission does not delete the pending entry. A second
  submission therefore files again and overwrites the record.
- Choosing a leave type writes the pending entry before the roles are
  counted. A member with no roles besides the default one gets the
  "no roles" error and still has a pending entry.
- The reason is never checked. An empty reason is filed as it is.
- The duration goes through `parseInt` with no radix. So `"3abc"` and `" 3"`
  are accepted as 3, `"0x10"` is accepted as 16, and `"0"`, `"-5"`, `"abc"`
  and `"0x"` are rejected.
- Choosing a role without a type on record gets its own "type not chosen
  yet" error. Only the form step answers "incomplete data".
- The stored leave type is the raw value the menu sent. The status is the
  Arabic "pending" text. The custom ids are the Arabic ids in the source.
- The chosen role id is not checked against the roles that were offered.

## Model

| member | source | states |
|---|---|---|
| `JsParseInt.TrimStartSpec` | index.js:166 | `parseInt` skips exactly the leading run of white space and line terminators: what remains is a suffix of the input that does not start with white space |
| `JsParseInt.LeadingDigitsSpec` | index.js:166 | `parseInt` reads the longest prefix of digits of the chosen radix: a prefix of the input, all digits, and not followed by another digit |
| `ParseIntProperties.ValueOfDigits` | index.js:166 | reading back the digits of `n` in radix 10 or 16 gives `n` |
| `ParseIntProperties.ParseIntIgnoresLeadingWhiteSpace` | index.js:166 | leading white space never changes the parsed duration |
| `ParseIntProperties.ParseIntOfDecimal` | index.js:166 | round trip: white space, then the decimal text of any integer, then text that does not extend the number, parses back to that integer |
| `ParseIntProperties.ParseIntOfDecimalDigits` | index.js:166 | any run of decimal digits, leading zeros allowed, after white space and with no sign, `+` or `-`, before text that does not extend it and not beginning a `0x` prefix, parses as the decimal value of the run, negated after `-` |
| `ParseIntProperties.ParseIntLeadingZeros` | index.js:166 | `"007"` parses as 7 |
| `ParseIntProperties.ParseIntPlusSign` | index.js:166 | `"+3"` parses as 3 |
| `ParseIntProperties.ParseIntOfHexDigits` | index.js:166 | without a radix, `0x`/`0X` (optionally after `+` or `-`) followed by any non-empty run of hex digits, either case, leading zeros allowed, parses as the base-16 value of that run (negated after `-`) |
| `ParseIntProperties.ParseIntOfHex` | index.js:166 | round trip: the lower-case hex digits of any `m` after `0x`/`0X` parse back to `m`, and to `-m` after `-` |
| `ParseIntProperties.ParseIntHexUpperCase` | index.js:166 | `"0xFF"` parses as 255 |
| `ParseIntProperties.ParseIntHexLeadingZero` | index.js:166 | `"0x0a"` parses as 10 |
| `JsParseInt.ParseInt` | index.js:166-168 | the parse is a number exactly when, after white space and a sign, a decimal digit follows, and a `0x` prefix is followed by a hex digit; otherwise it is NaN. Its values are stated by `ParseIntOfDecimalDigits`, `ParseIntOfDecimal`, `ParseIntOfHexDigits` and `ParseIntIgnoresLeadingWhiteSpace` |
| `ParseIntProperties.ParseIntExamples` | index.js:166-168 | `"0"`→0, `"-5"`→-5, `"3abc"`→3, `" 3"`→3, `"1.5"`→1, `"0x10"`→16; `"abc"`, `""` and `"0x"` are NaN |
| `Workflow.OfferedRoles` | index.js:91-93 | the role menu holds an option `{name, id}` exactly for each member role whose id is not the guild id; no option carries the guild id |
| `WorkflowProperties.OfferedRolesAppend` | index.js:91-93 | the role filter keeps the member's role order: filtering a concatenation gives the concatenation of the filtered parts |
| `Workflow.NoOfferedRolesIff` | index.js:91-95 | the menu is empty exactly when every role the member holds has the guild id |
| `Workflow.DurationFieldId` | index.js:127-140 | the form asks for one of two duration fields: the minutes field exactly when the type is `"minutes"`, and the days field for every other type |
| `Workflow.SelectVacationType` | index.js:87-112 | the type menu's handler: the entry becomes exactly the chosen type with no role, other entries and the store are unchanged, and the reply is the "no roles" error exactly when every role has the guild id, the role menu of `OfferedRoles` otherwise; restated per event by `SelectTypeRestartsRequest` |
| `Workflow.SelectRole` | index.js:115-152 | the role menu's handler: the "type not chosen" error exactly when there is no entry or no truthy type, and then no change; otherwise the type is kept, the first selected value becomes the role, nothing else changes, and the form shows the duration field `DurationFieldId` picks for the type (minutes for `"minutes"`, days otherwise); restated per event by `SelectRoleWithoutType` and `SelectRoleRecordsRole` |
| `Workflow.SubmitForm` | index.js:155-182 | the form's handler: "incomplete data" exactly when the entry lacks a truthy type or role; every reply but success leaves the state unchanged; success means both fields are present, `parseInt` of the type's duration field is positive, the pending table is kept and exactly the record built from entry and form is stored for the user; restated per event by `SubmitIncompleteRequest`, `SubmitMissingField` and `SubmitDurationDecides` |
| `Workflow.Step` | index.js:64-184 | one event changes only its own user's pending entry and record; pending entries are never removed; the store changes only on a successful submission and keeps every record well formed; a rejected event changes nothing; a filed record matches the user's complete pending entry |
| `Workflow.Run` | index.js:64-184 | over any sequence of events: one reply per event, no pending entry or record disappears, records stay well formed, and users who sent no event keep their entries and records unchanged |
| `WorkflowProperties.RunAppend` | index.js:64-184 | handling two event sequences in a row is handling the first and then the second from the state it left |
| `WorkflowProperties.OpeningStepsChangeNothing` | index.js:45-85 | the `!vacation` message and the entry button only display the entry prompt and the type menu, any other text or button gets no reply, and neither changes the pending table or the store |
| `WorkflowProperties.SelectTypeRestartsRequest` | index.js:87-112 | choosing a type sets the entry to exactly that type with no role, replacing any earlier entry; other users and the store are untouched; the reply is the role menu, or the "no roles" error exactly when every role has the guild id, with the entry written in both cases |
| `WorkflowProperties.SelectRoleWithoutType` | index.js:115-119 | choosing a role with no entry, or with no truthy type on it, gets the error reply and changes nothing |
| `WorkflowProperties.SelectRoleRecordsRole` | index.js:115-152 | choosing a role keeps the type, records the first selected value as the role, changes nothing else, and shows the form with the duration field for the type |
| `WorkflowProperties.SubmitIncompleteRequest` | index.js:155-159 | a submission without a truthy type and role on record gets the "incomplete data" error and writes nothing |
| `WorkflowProperties.SubmitDurationDecides` | index.js:160-182 | for a complete entry, the request is filed exactly when `parseInt` of the type's duration field is positive; a filed request replaces only this user's record, with role, duration, reason, type and pending status taken from the entry and form, and keeps the pending entry; anything else is rejected with no change |
| `WorkflowProperties.SubmitMissingField` | index.js:160-165 | for a complete entry, the generic error reply comes exactly when the form lacks the type's duration field or the reason field, and then nothing changes |
| `WorkflowProperties.SubmitRejectsBadDurations` | index.js:162-170 | durations `"0"`, `"-5"` and `"abc"` are rejected and leave the state unchanged |
| `WorkflowProperties.SubmitAcceptsDigitPrefix` | index.js:162-180 | durations `"3abc"` and `" 3"` are filed as 3 |
| `WorkflowProperties.SubmitIgnoresStore` | index.js:155-182 | a submission's reply depends on the pending table alone, not on what the store holds, and on success two stores that differ only in the user's record end equal |
| `WorkflowProperties.RestartForgetsRole` | index.js:87-159 | re-choosing a type clears the role chosen before, so a form submitted right after it is rejected as incomplete |
| `WorkflowProperties.ResubmissionOverwrites` | index.js:155-182 | after a filed request the pending entry remains; a later submission is handled as if the first had never been made and, when accepted, overwrites the record |
| `WorkflowProperties.CompleteRequest` | index.js:87-182 | type, role, then a form with the decimal text of a positive duration: the replies are role menu, form, success; exactly the record built from the inputs is filed for the user; the pending entry is left holding type and role |
| `WorkflowProperties.DaysRequestScenario` | index.js:87-182 | from an empty state, "days", role "Member", duration "3" and reason "travel" leave exactly that record on file |

## Left out

- The discord.js client, its intents, login and the `ready` handler (index.js:16-23, 41-43, 195). These are platform plumbing.
- Rendering. Embeds, buttons, menus and modals, and `reply`/`update`/`showModal`/`followUp`, are reduced to the abstract `Response` tags. The builders' own checks are library code and are not part of this model, for example the 25-option limit of a select menu. With more than 25 roles, `addOptions` (index.js:103) throws after the pending entry was written at index.js:89. The bot then answers with its generic error while the pending table has changed. The model instead shows the role menu with every role, so its "a rejected event changes nothing" does not cover this case.
- Loading and saving the JSON file (index.js:25-36). The store is the in-memory map that `saveVacationData` writes out whole. Reloading it after a restart is file I/O and is not modelled.
- The top-level `catch` (index.js:185-191). Only one exception is modelled: a missing form field, which makes `getTextInputValue` throw. It appears as the `HandlerError` reply with no state change. Failures while sending a reply, and the `replied`/`deferred` choice between `followUp` and `reply`, are transport matters.
- A failing `saveVacationData` (index.js:180). Writing the file is I/O the model leaves out. In the source the failure throws after the in-memory write at index.js:172-179, so the bot answers with its generic error while the store has already changed. The model's "a rejected event changes nothing" does not cover that case: in the model every submission that reaches the write is filed and answered with success.
- Interleaving of asynchronous handlers across users. The model handles events one at a time.
- Number precision in `parseInt`. Results are unbounded integers, so values above 2^53 are not rounded to a double, very long digit strings do not become `Infinity`, and `-0` is the same as `0`. None of this changes which durations are accepted.
- String encoding. Strings are sequences of code points, while JavaScript strings are UTF-16 code units. Every white-space character and every digit lies in the Basic Multilingual Plane, so `parseInt` gives the same result either way.
