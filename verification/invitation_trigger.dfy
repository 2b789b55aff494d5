/** Model of the meeting platform's `onInvitationUpdate` trigger.

    The platform calls the handler once per update of an invitation document, with the
    document's state before and after the update and the document's id. When the status has
    just become "accepted", the handler appends one meeting to the `meetings` collection and
    reports the new meeting's id; otherwise it writes nothing and reports "not_accepted". A
    failed write is rethrown to the platform.

    Platform services are made explicit: the wall clock is the parameter `now` (milliseconds),
    the server-side creation timestamp is the marker `ServerTimestamp`, the `meetings`
    collection is a `MeetingsCollection` object whose documents are identified by the index
    they were appended at, and whether the write fails is the parameter `fault`. */
module InvitationTrigger {

  datatype Option<+T> = None | Some(value: T)

  /** The status value the trigger reacts to. */
  const ACCEPTED: string := "accepted"

  /** The reason reported when an update does not create a meeting. */
  const NOT_ACCEPTED: string := "not_accepted"

  /** Default distance between the acceptance and the meeting: seven days in milliseconds. */
  const SCHEDULE_OFFSET_MS: int := 7 * 24 * 60 * 60 * 1000

  /** The fields of an invitation document the handler reads. */
  datatype Invitation = Invitation(status: string, senderId: string, receiverId: string)

  /** One update notification: the document before and after the update, and its id. */
  datatype Event = Event(before: Invitation, after: Invitation, invitationId: string)

  /** The sentinel the store replaces by its own clock when the document is written. */
  datatype CreatedAt = ServerTimestamp

  /** A meeting document as written to the `meetings` collection. */
  datatype Meeting = Meeting(
    participants: seq<string>,
    scheduledFor: int,
    createdAt: CreatedAt,
    createdFromInvitation: string)

  /** The error a failed write raises; its content is up to the store. */
  datatype WriteError = WriteError(message: string)

  /** What one write to the store yields: the new document's id, or the error it raised. */
  datatype AddResult = Added(id: nat) | AddFailed(error: WriteError)

  /** What the handler does: return `{success: true, meetingId}`, return
      `{success: false, reason}`, or throw the write's error. */
  datatype Response = Created(meetingId: nat) | Skipped(reason: string) | Threw(error: WriteError)
  {
    /** The `success` field of a returned result. */
    predicate Success() {
      Created?
    }
  }

  /** The trigger condition: the status was not "accepted" before and is "accepted" after. */
  predicate BecameAccepted(e: Event) {
    e.before.status != ACCEPTED && e.after.status == ACCEPTED
  }

  /** The meeting created for an accepted invitation at time `now`: the two participants
      of the updated invitation, sender first, and a meeting one week ahead. */
  function NewMeeting(after: Invitation, invitationId: string, now: int): (m: Meeting)
    ensures |m.participants| == 2
    ensures m.participants[0] == after.senderId && m.participants[1] == after.receiverId
    ensures m.scheduledFor - now == 604_800_000
    ensures m.createdAt == ServerTimestamp
    ensures m.createdFromInvitation == invitationId
  {
    Meeting([after.senderId, after.receiverId], now + SCHEDULE_OFFSET_MS, ServerTimestamp, invitationId)
  }

  /** One invocation of the handler on a store holding `meetings`: the store afterwards
      and the handler's response. */
  function Step(meetings: seq<Meeting>, e: Event, now: int, fault: Option<WriteError>)
    : (out: (seq<Meeting>, Response))
    // the store is append-only: existing meetings are kept, in place
    ensures |meetings| <= |out.0| <= |meetings| + 1
    ensures out.0[..|meetings|] == meetings
    // a meeting is appended if and only if the status just became accepted and the write succeeds
    ensures |out.0| == |meetings| + 1 <==> BecameAccepted(e) && fault.None?
    // success is reported exactly when a meeting was appended, with the id it was stored at
    ensures out.1.Success() <==> |out.0| == |meetings| + 1
    ensures out.1.Success() ==>
      out.1.meetingId == |meetings| && out.0[out.1.meetingId] == NewMeeting(e.after, e.invitationId, now)
    // any other transition is skipped and writes nothing
    ensures !BecameAccepted(e) ==> out.0 == meetings && out.1 == Skipped(NOT_ACCEPTED)
    // a failed write is rethrown unchanged and writes nothing
    ensures BecameAccepted(e) && fault.Some? ==> out.0 == meetings && out.1 == Threw(fault.value)
  {
    if !BecameAccepted(e) then
      (meetings, Skipped(NOT_ACCEPTED))
    else
      match fault
      case Some(err) => (meetings, Threw(err))
      case None => (meetings + [NewMeeting(e.after, e.invitationId, now)], Created(|meetings|))
  }

  /** The `meetings` collection of the document store. */
  class MeetingsCollection {
    var meetings: seq<Meeting>

    constructor ()
      ensures meetings == []
    {
      meetings := [];
    }

    /** Inserts a document under a fresh id (the position it is appended at), unless the
        write fails, in which case the collection is left as it was. */
    method Add(m: Meeting, fault: Option<WriteError>) returns (r: AddResult)
      modifies this
      ensures fault.None? ==> meetings == old(meetings) + [m] && r == Added(|old(meetings)|)
      ensures fault.Some? ==> meetings == old(meetings) && r == AddFailed(fault.value)
    {
      match fault
      case None =>
        r := Added(|meetings|);
        meetings := meetings + [m];
      case Some(err) =>
        r := AddFailed(err);
    }
  }

  /** The handler body. Its effect on the collection is to append one meeting or nothing. */
  method OnInvitationUpdate(db: MeetingsCollection, e: Event, now: int, fault: Option<WriteError>)
    returns (r: Response)
    modifies db
    ensures (db.meetings, r) == Step(old(db.meetings), e, now, fault)
    ensures db.meetings == old(db.meetings)
         || db.meetings == old(db.meetings) + [NewMeeting(e.after, e.invitationId, now)]
  {
    if e.before.status != ACCEPTED && e.after.status == ACCEPTED {
      var added := db.Add(NewMeeting(e.after, e.invitationId, now), fault);
      match added
      case Added(id) =>
        r := Created(id);
      case AddFailed(err) =>
        r := Threw(err);
    } else {
      r := Skipped(NOT_ACCEPTED);
    }
  }

  /** One delivery of an update notification by the platform, with the clock reading and
      the write outcome of that invocation. */
  datatype Delivery = Delivery(event: Event, now: int, fault: Option<WriteError>)

  /** The store after the handler has run once per delivery, in order. Delivering an
      event again is just another element of `ds`. */
  function Deliver(meetings: seq<Meeting>, ds: seq<Delivery>): (r: seq<Meeting>)
    ensures |meetings| <= |r| <= |meetings| + |ds|
    ensures r[..|meetings|] == meetings
    decreases |ds|
  {
    if ds == [] then
      meetings
    else
      Deliver(Step(meetings, ds[0].event, ds[0].now, ds[0].fault).0, ds[1..])
  }

  /** How many meetings in the store were created from the given invitation. */
  function CountFrom(meetings: seq<Meeting>, invitationId: string): (n: nat)
    ensures n <= |meetings|
    ensures n == 0 <==> forall i :: 0 <= i < |meetings| ==> meetings[i].createdFromInvitation != invitationId
    decreases |meetings|
  {
    if meetings == [] then
      0
    else
      var last := meetings[|meetings| - 1];
      CountFrom(meetings[..|meetings| - 1], invitationId) + (if last.createdFromInvitation == invitationId then 1 else 0)
  }

  lemma CountFromAppend(meetings: seq<Meeting>, m: Meeting, invitationId: string)
    ensures CountFrom(meetings + [m], invitationId)
         == CountFrom(meetings, invitationId) + (if m.createdFromInvitation == invitationId then 1 else 0)
  {
    assert (meetings + [m])[..|meetings|] == meetings;
  }

  /** Deliveries none of which is an acceptance leave the store exactly as it was. */
  lemma {:induction false} NoAcceptanceNoMeeting(meetings: seq<Meeting>, ds: seq<Delivery>)
    requires forall i :: 0 <= i < |ds| ==> !BecameAccepted(ds[i].event)
    ensures Deliver(meetings, ds) == meetings
    decreases |ds|
  {
    if ds != [] {
      NoAcceptanceNoMeeting(meetings, ds[1..]);
    }
  }

  /** No deduplication: every successful delivery of the same acceptance appends another
      meeting for that invitation, so `k` deliveries add `k` meetings, each with the
      participants of the accepted invitation. */
  lemma {:induction false} Redelivery(meetings: seq<Meeting>, e: Event, ds: seq<Delivery>)
    requires BecameAccepted(e)
    requires forall i :: 0 <= i < |ds| ==> ds[i].event == e && ds[i].fault == None
    ensures |Deliver(meetings, ds)| == |meetings| + |ds|
    ensures CountFrom(Deliver(meetings, ds), e.invitationId) == CountFrom(meetings, e.invitationId) + |ds|
    ensures forall j :: |meetings| <= j < |Deliver(meetings, ds)| ==>
      Deliver(meetings, ds)[j].participants == [e.after.senderId, e.after.receiverId]
    decreases |ds|
  {
    if ds != [] {
      var m := NewMeeting(e.after, e.invitationId, ds[0].now);
      var next := Step(meetings, e, ds[0].now, None).0;
      assert next == meetings + [m];
      CountFromAppend(meetings, m, e.invitationId);
      Redelivery(next, e, ds[1..]);
      var r := Deliver(meetings, ds);
      assert r == Deliver(next, ds[1..]);
      forall j | |meetings| <= j < |r|
        ensures r[j].participants == [e.after.senderId, e.after.receiverId]
      {
        if j == |meetings| {
          assert r[j] == r[..|next|][j] == next[j] == m;
        }
      }
    }
  }

  /** The same acceptance delivered twice leaves two meetings for one invitation, so the
      handler is not idempotent. */
  lemma DuplicateDelivery(meetings: seq<Meeting>, e: Event, now1: int, now2: int)
    requires BecameAccepted(e)
    requires CountFrom(meetings, e.invitationId) == 0
    ensures CountFrom(Deliver(meetings, [Delivery(e, now1, None), Delivery(e, now2, None)]), e.invitationId) == 2
  {
    Redelivery(meetings, e, [Delivery(e, now1, None), Delivery(e, now2, None)]);
  }

  /** Accepting, withdrawing and accepting again creates a second meeting for the invitation. */
  lemma ToggleCreatesSecondMeeting(meetings: seq<Meeting>, id: string, pending: Invitation,
                                   accepted: Invitation, withdrawn: Invitation, now1: int, now2: int, now3: int)
    requires pending.status != ACCEPTED && accepted.status == ACCEPTED && withdrawn.status != ACCEPTED
    requires CountFrom(meetings, id) == 0
    ensures CountFrom(Deliver(meetings, [
      Delivery(Event(pending, accepted, id), now1, None),
      Delivery(Event(accepted, withdrawn, id), now2, None),
      Delivery(Event(withdrawn, accepted, id), now3, None)]), id) == 2
  {
    var d1 := Delivery(Event(pending, accepted, id), now1, None);
    var d2 := Delivery(Event(accepted, withdrawn, id), now2, None);
    var d3 := Delivery(Event(withdrawn, accepted, id), now3, None);
    var m1 := NewMeeting(accepted, id, now1);
    var m3 := NewMeeting(accepted, id, now3);
    calc {
      Deliver(meetings, [d1, d2, d3]);
      Deliver(meetings + [m1], [d2, d3]);
      Deliver(meetings + [m1], [d3]);
      Deliver(meetings + [m1] + [m3], []);
    }
    CountFromAppend(meetings, m1, id);
    CountFromAppend(meetings + [m1], m3, id);
  }
}
