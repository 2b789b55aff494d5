# Meeting platform: invitation-acceptance trigger

A Dafny model of `onInvitationUpdate`, the one Cloud Function of the meeting platform.
The platform calls it whenever an invitation document changes. It receives the document
before and after the change, plus the invitation id. If the status has just become
`"accepted"`, it adds one document to the `meetings` collection. That document holds:

- the participants `[senderId, receiverId]` of the updated invitation;
- a `scheduledFor` time seven days after the invocation;
- a server-assigned `createdAt`;
- a back-reference `createdFromInvitation` to the invitation.

It then returns `{success: true, meetingId}`. Any other update returns
`{success: false, reason: "not_accepted"}` and writes nothing. A failed write is rethrown.

Everything is in `invitation_trigger.dfy`, module `InvitationTrigger`:

- `BecameAccepted` is the trigger condition.
- `NewMeeting` builds the meeting record. The 7-day offset is integer milliseconds.
- `Step` is the pure specification of one invocation. It maps the collection's contents and
  the event to the new contents and the response. Its contract states every promise of the
  handler.
- `MeetingsCollection` is the `meetings` collection, a class with a `seq<Meeting>` field.
  Its `Add` method is the store's insert. `OnInvitationUpdate` is the imperative handler,
  proved equal to `Step`.
- `Deliver` runs the handler once per delivery, in order. It models the platform's
  at-least-once delivery, so the lemmas can state that the handler is not idempotent.

Platform services are parameters:

- the clock `Date.now()` is the integer `now`, in milliseconds;
- `FieldValue.serverTimestamp()` is the marker value `ServerTimestamp`;
- a new meeting's id is the index it is appended at;
- whether the insert fails is the parameter `fault`: `None` means success, `Some(e)` means
  the insert throws `e`.

## Model

| member | source | states |
|---|---|---|
| `InvitationTrigger.NewMeeting` | functions/index.js:43-49 | The record lists exactly two participants: the after-snapshot's sender, then its receiver. `scheduledFor` is exactly 604,800,000 ms (7 days) after `now`. `createdAt` is the server-timestamp marker. `createdFromInvitation` is the event's invitation id. |
| `InvitationTrigger.Step` | functions/index.js:35-61 | Existing meetings stay unchanged and in place. At most one meeting is appended. A meeting is appended if and only if `before.status != "accepted"`, `after.status == "accepted"` and the write succeeds. Success is reported exactly when a meeting was appended. The reported `meetingId` is the id of the appended meeting, and that meeting is `NewMeeting(after, invitationId, now)`. Every other transition writes nothing and reports `not_accepted`. A failed write writes nothing and rethrows the same error. |
| `InvitationTrigger.MeetingsCollection.Add` | functions/index.js:42-50 | A successful insert appends the document and returns its fresh id, which is its index. A failed insert leaves the collection unchanged and returns the error. |
| `InvitationTrigger.OnInvitationUpdate` | functions/index.js:26-61 | The collection afterwards and the response equal `Step` of the collection before. The collection afterwards is either unchanged or the old contents plus the one new meeting. |
| `InvitationTrigger.Deliver` | functions/index.js:35-50 | Across any sequence of invocations, the collection only grows at the end. It gains at most one meeting per invocation. |
| `InvitationTrigger.CountFrom` | functions/index.js:49 | The number of meetings that point back to an invitation is at most the collection's size. It is zero exactly when no meeting points back to that invitation. |
| `InvitationTrigger.NoAcceptanceNoMeeting` | functions/index.js:35 | A sequence of invocations that contains no transition to "accepted" leaves the collection exactly as it was. |
| `InvitationTrigger.Redelivery` | functions/index.js:35-50 | There is no deduplication. k successful deliveries of the same acceptance append k meetings, all for that invitation and all with its after-snapshot's participants. |
| `InvitationTrigger.DuplicateDelivery` | functions/index.js:35-42 | The same acceptance delivered twice to a collection with no meeting for the invitation leaves two meetings for it. |
| `InvitationTrigger.ToggleCreatesSecondMeeting` | functions/index.js:35 | The sequence pending→accepted, accepted→withdrawn, withdrawn→accepted creates two meetings for one invitation. |

## Left out

- Registration with the platform (`onDocumentUpdated`), `initializeApp()` and `getFirestore()` are platform calls. The model passes the collection to the handler instead.
- All `console.log` and `console.error` output is I/O only.
- `Date.now()`, `new Date(...)` and `Timestamp.fromDate` are left out. The time is the integer parameter `now` in milliseconds, with no date conversion.
- `FieldValue.serverTimestamp()` is an opaque marker. The time the store puts in its place is not modelled.
- Firestore's random document ids are left out. The id of a new meeting is the index it is appended at.
- `async`/`await` and concurrent invocations are left out. Each invocation is one sequential call. Interleaved invocations on the shared collection are not modelled.
- Snapshots with missing fields, where JavaScript yields `undefined`, are left out. Snapshots are total records with string fields.
- Why a write fails is left out. The failure and its error are supplied by the caller as `fault`.
