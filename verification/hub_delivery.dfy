/**
 What an accepted message is worth: it sits on a live session's channel or in the offline queue
 (mess/hub.go:238-261 and 369-624; mess/client.go:187-300).
 */
module HubDelivery {
  import opened Wrappers
  import opened Sequences
  import opened Text
  import opened Envelopes
  import opened Hub
  import Offline = OfflineQueue
  import History

  /** Every session of the account with room, and there is one, has the payload at the end of its channel. */
  ghost predicate Enqueued(s: State, s': State, pubKey: string, payload: Payload) {
    && Listening(s, pubKey) != {}
    && SessionsOf(s', pubKey) == Listening(s, pubKey)
    && forall c :: c in Listening(s, pubKey) ==> c in s'.queues && s'.queues[c] == s.queues[c] + [payload]
  }

  ghost predicate Queued(s: State, recipient: string, payload: Payload) {
    Offline.Holds(s.offline.rows, recipient, MessageIdOf(payload))
  }

  // ----- one delivery -----

  /** Delivery enqueues on a live session exactly when one of them has room. */
  lemma DeliveryEnqueues(s: State, pubKey: string, payload: Payload)
    requires SessionsSound(s)
    ensures Enqueued(s, Delivered(s, pubKey, payload), pubKey, payload) <==> Listening(s, pubKey) != {}
  {
  }

  /** Nothing about one account changes: its sessions and their channels. */
  ghost predicate Untouched(s: State, s': State, pubKey: string) {
    && SessionsOf(s', pubKey) == SessionsOf(s, pubKey)
    && s'.queues.Keys == s.queues.Keys
    && forall c :: c in SessionsOf(s, pubKey) && c in s.queues ==> s'.queues[c] == s.queues[c]
  }

  /** No offline row and no history row is lost. */
  ghost predicate NothingLost(s: State, s': State) {
    && (forall r, id :: Offline.Holds(s.offline.rows, r, id) ==> Offline.Holds(s'.offline.rows, r, id))
    && (forall t, id :: History.Holds(s.history.rows, t, id) ==> History.Holds(s'.history.rows, t, id))
  }

  lemma DeliveryTouchesOne(s: State, pubKey: string, other: string, payload: Payload)
    requires SessionsSound(s) && other != pubKey
    ensures Untouched(s, Delivered(s, pubKey, payload), other)
  {
  }

  lemma QueueingLosesNothing(s: State, hasDb: bool, m: Message, faults: Faults)
    requires OfflineSaved(s, hasDb, m, faults).Some?
    ensures NothingLost(s, OfflineSaved(s, hasDb, m, faults).value)
  {
    hide Offline.Saved;
    hide Offline.Holds;
    hide History.Holds;
    forall r, id | Offline.Holds(s.offline.rows, r, id)
      ensures Offline.Holds(OfflineSaved(s, hasDb, m, faults).value.offline.rows, r, id)
    {
      Offline.SavingLosesNothing(s.offline, m.sender, m.recipient, m.payload, r, id);
    }
  }

  lemma QueueingQueues(s: State, m: Message, faults: Faults)
    requires OfflineSaved(s, true, m, faults).Some? && m.recipient != ""
    ensures Queued(OfflineSaved(s, true, m, faults).value, m.recipient, m.payload)
  {
    hide Offline.Saved;
    Offline.SavedHolds(s.offline, m.sender, m.recipient, m.payload);
  }

  // ----- direct messages -----

  lemma RecordedHolds(t: History.Table, row: History.Row)
    ensures History.Holds(History.Recorded(t, row).rows, row.thread, row.msgId)
  {
    var rows := History.Recorded(t, row).rows;
    if !History.Holds(t.rows, row.thread, row.msgId) {
      assert rows[|rows| - 1].thread == row.thread && rows[|rows| - 1].msgId == row.msgId;
    }
  }

  lemma RestatingHolds(s: State, m: Message, state: string, faults: Faults, thread: History.ThreadId, id: string)
    ensures History.Holds(HistoryRestated(s, m, state, faults).history.rows, thread, id)
         == History.Holds(s.history.rows, thread, id)
  {
    hide Trim;
    hide History.ThreadOf;
    var rows, rows' := s.history.rows, HistoryRestated(s, m, state, faults).history.rows;
    assert |rows'| == |rows|;
    assert forall i :: 0 <= i < |rows| ==> rows'[i].thread == rows[i].thread && rows'[i].msgId == rows[i].msgId;
    if History.Holds(rows, thread, id) {
      var i :| 0 <= i < |rows| && rows[i].thread == thread && rows[i].msgId == id;
      assert rows'[i].thread == thread;
    }
  }

  ghost predicate Filed(m: Message, faults: Faults) {
    match History.FilingOf(m)
    case Skip => true
    case Refuse => false
    case File(_) => !faults.history
  }

  /** A direct message is accepted exactly when its history is filed and it is delivered, queued or fleeting. */
  lemma DirectAcceptedExactlyWhen(s: State, m: Message, faults: Faults)
    ensures RoutedDirect(s, true, m, true, faults).1 <==>
              && (HasDirectHistory(m.kind) ==> Filed(m, faults))
              && (Listening(s, m.recipient) != {} || !MessagePersistsOffline(m) || m.recipient == ""
                  || m.recipient !in faults.offline)
  {
    hide MessagePersistsOffline;
    hide HasDirectHistory;
    hide History.FilingOf;
    hide History.Recorded;
    hide Offline.Saved;
    hide HistoryRestated;
    hide Delivered;
    if HasDirectHistory(m.kind) && Filed(m, faults) {
      assert Listening(HistorySaved(s, m, faults).value, m.recipient) == Listening(s, m.recipient);
    }
  }

  /** The state a direct message's delivery and queueing start from: its history entry filed. */
  ghost function AfterFiling(s: State, m: Message, faults: Faults): State {
    if HasDirectHistory(m.kind) && HistorySaved(s, m, faults).Some? then HistorySaved(s, m, faults).value else s
  }

  lemma FilingFiles(s: State, m: Message, faults: Faults)
    ensures var s' := AfterFiling(s, m, faults);
            && s'.clients == s.clients && s'.queues == s.queues && s'.offline == s.offline
            && (HasDirectHistory(m.kind) && Filed(m, faults) && History.FilingOf(m).File? ==>
                  History.Holds(s'.history.rows, History.FilingOf(m).row.thread, History.FilingOf(m).row.msgId))
  {
    hide History.FilingOf;
    hide HasDirectHistory;
    hide History.Recorded;
    hide History.Holds;
    if History.FilingOf(m).File? {
      RecordedHolds(s.history, History.FilingOf(m).row);
    }
  }

  /** An accepted direct message is on a live session or in the queue, or is of a kind that is not kept. */
  lemma DirectAcceptedIsKept(s: State, m: Message, faults: Faults)
    requires SessionsSound(s) && m.recipient != ""
    ensures var (s', accepted) := RoutedDirect(s, true, m, true, faults);
            accepted ==> Enqueued(s, s', m.recipient, m.payload) || Queued(s', m.recipient, m.payload)
                         || !MessagePersistsOffline(m)
  {
    hide MessagePersistsOffline;
    hide HasDirectHistory;
    hide HistorySaved;
    hide History.StateUpdated;
    hide Delivered;
    hide Listening;
    hide OfflineSaved;
    hide SessionsSound;
    hide Offline.Holds;
    var filed := AfterFiling(s, m, faults);
    FilingFiles(s, m, faults);
    FiledSound(s, filed);
    DeliveryEnqueues(filed, m.recipient, m.payload);
    var sent := Delivered(filed, m.recipient, m.payload);
    if OfflineSaved(sent, true, m, faults).Some? {
      QueueingQueues(sent, m, faults);
    }
  }

  lemma FiledSound(s: State, s': State)
    requires SessionsSound(s) && s'.clients == s.clients && s'.queues == s.queues
    ensures SessionsSound(s')
    ensures forall key :: Listening(s', key) == Listening(s, key)
  {
  }

  lemma DeliveryKeepsTables(s: State, hasDb: bool, m: Message, faults: Faults)
    ensures var s' := Delivered(s, m.recipient, m.payload);
            && s'.history == s.history && s'.offline == s.offline
            && (OfflineSaved(s', hasDb, m, faults).Some? ==>
                  OfflineSaved(s', hasDb, m, faults).value.history == s.history)
  {
    hide Offline.Saved;
  }

  /** The history once an entry is filed and its state updated. */
  ghost function HistoryAfter(s: State, m: Message, row: History.Row, state: string, faults: Faults): History.Table {
    HistoryRestated(s.(history := History.Recorded(s.history, row)), m, state, faults).history
  }

  /** What an accepted direct message of a recorded kind leaves in the history. */
  lemma DirectHistoryIs(s: State, m: Message, faults: Faults)
    requires HasDirectHistory(m.kind) && History.FilingOf(m).File?
    ensures var (s', accepted) := RoutedDirect(s, true, m, true, faults);
            var state := if Listening(s, m.recipient) != {} then "delivered" else "waiting_delivery";
            accepted ==> s'.history == HistoryAfter(s, m, History.FilingOf(m).row, state, faults)
  {
    hide MessagePersistsOffline;
    hide HasDirectHistory;
    hide History.FilingOf;
    hide History.Recorded;
    hide History.StateUpdated;
    hide Delivered;
    hide OfflineSaved;
    hide FirstNonBlank;
    RecordedKindsPersist(m);
    var filed := AfterFiling(s, m, faults);
    DeliveryKeepsTables(filed, true, m, faults);
    assert Listening(filed, m.recipient) == Listening(s, m.recipient);
  }

  /** An accepted direct message of a recorded kind has a history row under its thread and identifier. */
  lemma DirectAcceptedIsRecorded(s: State, m: Message, faults: Faults)
    requires HasDirectHistory(m.kind) && History.FilingOf(m).File?
    ensures var (s', accepted) := RoutedDirect(s, true, m, true, faults);
            var row := History.FilingOf(m).row;
            accepted ==> History.Holds(s'.history.rows, row.thread, row.msgId)
  {
    hide RoutedDirect;
    hide HasDirectHistory;
    hide History.FilingOf;
    hide History.Holds;
    hide History.Recorded;
    hide HistoryRestated;
    hide Listening;
    var row := History.FilingOf(m).row;
    DirectHistoryIs(s, m, faults);
    RecordedHolds(s.history, row);
    var filed := s.(history := History.Recorded(s.history, row));
    RestatingHolds(filed, m, "delivered", faults, row.thread, row.msgId);
    RestatingHolds(filed, m, "waiting_delivery", faults, row.thread, row.msgId);
  }

  lemma RestatingKeepsRecords(s: State, m: Message, state: string, faults: Faults, thread: History.ThreadId,
                              id: string, sender: string, payload: Payload)
    ensures History.Records(HistoryRestated(s, m, state, faults).history.rows, thread, id, sender, payload)
       <==> History.Records(s.history.rows, thread, id, sender, payload)
  {
    hide Trim;
    hide History.ThreadOf;
    var rows, rows' := s.history.rows, HistoryRestated(s, m, state, faults).history.rows;
    assert |rows'| == |rows| && forall i :: 0 <= i < |rows| ==> rows'[i] == rows[i].(state := rows'[i].state);
    if History.Records(rows, thread, id, sender, payload) {
      var i :| 0 <= i < |rows| && rows[i].thread == thread && rows[i].msgId == id && rows[i].sender == sender
               && rows[i].payload == payload;
      assert rows'[i] in rows';
    }
    if History.Records(rows', thread, id, sender, payload) {
      var i :| 0 <= i < |rows| && rows'[i].thread == thread && rows'[i].msgId == id && rows'[i].sender == sender
               && rows'[i].payload == payload;
      assert rows[i] in rows;
    }
  }

  lemma RestatedState(s: State, m: Message, state: string, faults: Faults)
    requires History.FilingOf(m).File? && !faults.state && Trim(state) == state != ""
    ensures var row := History.FilingOf(m).row;
            forall r :: r in HistoryRestated(s, m, state, faults).history.rows && r.thread == row.thread
                        && r.msgId == row.msgId && r.sender == row.sender && r.recipient == row.recipient ==>
              r.state == state
  {
    hide Trim;
    hide History.ThreadOf;
    hide History.FilingOf;
    History.OnlyEnvelopesAreFiled(m);
    History.FilingShape(m);
    var e := m.payload.envelope;
    TrimTwice(e.sender);
    TrimTwice(m.sender);
    TrimTwice(e.recipient);
    TrimTwice(m.recipient);
  }

  lemma RecordedKindsPersist(m: Message)
    requires HasDirectHistory(m.kind)
    ensures MessagePersistsOffline(m)
  {
  }

  lemma FiledAsAccepted(t: History.Table, m: Message)
    requires History.FilingOf(m).File?
    ensures forall r :: r in History.Recorded(t, History.FilingOf(m).row).rows ==> r in t.rows || r.state == "accepted"
  {
    hide History.FilingOf;
    hide History.Holds;
    hide Trim;
    History.OnlyEnvelopesAreFiled(m);
    History.FilingShape(m);
  }

  /**
   The history entry of an accepted direct message says whether it was delivered or waits; if the state update
   fails, a new entry says "accepted" and an earlier one is as it was.
   */
  lemma DirectStateTells(s: State, m: Message, faults: Faults)
    requires HasDirectHistory(m.kind) && History.FilingOf(m).File?
    ensures var (s', accepted) := RoutedDirect(s, true, m, true, faults);
            var row := History.FilingOf(m).row;
            accepted ==>
              forall r :: r in s'.history.rows && r.thread == row.thread && r.msgId == row.msgId
                          && r.sender == row.sender && r.recipient == row.recipient ==>
                if faults.state then r in s.history.rows || r.state == "accepted"
                else r.state == if Listening(s, m.recipient) != {} then "delivered" else "waiting_delivery"
  {
    hide RoutedDirect;
    hide HasDirectHistory;
    hide History.FilingOf;
    hide History.Recorded;
    hide History.StateUpdated;
    hide Listening;
    hide Trim;
    var row := History.FilingOf(m).row;
    DirectHistoryIs(s, m, faults);
    if faults.state {
      FiledAsAccepted(s.history, m);
    } else {
      var filed := s.(history := History.Recorded(s.history, row));
      TrimKeeps("delivered");
      TrimKeeps("waiting_delivery");
      RestatedState(filed, m, "delivered", faults);
      RestatedState(filed, m, "waiting_delivery", faults);
    }
  }

  // ----- groups and channels -----

  lemma MemberStep(s: State, member: string, m: Message, faults: Faults)
    requires SessionsSound(s)
    ensures var (s', ok) := DeliveredToMember(s, true, member, m, true, faults);
            && SessionsSound(s') && NothingLost(s, s')
            && (forall other :: other != member ==> Untouched(s, s', other))
            && (ok && member != "" && member != m.sender && PersistsOffline(m.kind) ==>
                  Enqueued(s, s', member, m.payload) || Queued(s', member, m.payload))
  {
    hide PersistsOffline;
    hide Delivered;
    hide Listening;
    hide OfflineSaved;
    hide SessionsSound;
    hide Offline.Holds;
    hide History.Holds;
    hide Untouched;
    var sent := Delivered(s, member, m.payload);
    DeliveryKeepsSound(s, member, m.payload);
    DeliveryEnqueues(s, member, m.payload);
    var copy := m.(recipient := member);
    DeliveryKeepsTables(s, true, copy, faults);
    forall other | other != member
      ensures Untouched(s, sent, other) && Untouched(s, s, other)
    {
      DeliveryTouchesOne(s, member, other, m.payload);
      NothingTouches(s, other);
    }
    if OfflineSaved(sent, true, copy, faults).Some? {
      QueueingKeepsSound(sent, true, copy, faults);
      QueueingLosesNothing(sent, true, copy, faults);
      QueueingTouchesNobody(s, sent, copy, faults);
      if member != "" {
        QueueingQueues(sent, copy, faults);
      }
    }
  }

  lemma NothingTouches(s: State, pubKey: string)
    ensures Untouched(s, s, pubKey)
  {
  }

  lemma QueueingTouchesNobody(s: State, sent: State, m: Message, faults: Faults)
    requires OfflineSaved(sent, true, m, faults).Some?
    ensures forall other :: Untouched(s, sent, other) ==> Untouched(s, OfflineSaved(sent, true, m, faults).value, other)
  {
    hide Offline.Saved;
  }

  lemma EnqueuedStays(s: State, s': State, s'': State, pubKey: string, payload: Payload)
    requires Enqueued(s, s', pubKey, payload) && Untouched(s', s'', pubKey)
    ensures Enqueued(s, s'', pubKey, payload)
  {
  }

  lemma EnqueuedEarlier(s: State, s': State, s'': State, pubKey: string, payload: Payload)
    requires Untouched(s, s', pubKey) && Enqueued(s', s'', pubKey, payload)
    ensures Enqueued(s, s'', pubKey, payload)
  {
  }

  lemma {:induction false} FanOutKeeps(s: State, members: seq<string>, m: Message, faults: Faults)
    requires SessionsSound(s)
    ensures var s' := FannedOut(s, true, members, m, true, faults).0;
            && NothingLost(s, s')
            && (forall other :: other !in members ==> Untouched(s, s', other))
    decreases |members|
  {
    hide DeliveredToMember;
    hide SessionsSound;
    hide Offline.Holds;
    hide History.Holds;
    hide Untouched;
    if members == [] {
      forall other ensures Untouched(s, s, other) {
        NothingTouches(s, other);
      }
    } else {
      var s' := DeliveredToMember(s, true, members[0], m, true, faults).0;
      var s'' := FannedOut(s', true, members[1..], m, true, faults).0;
      MemberStep(s, members[0], m, faults);
      FanOutKeeps(s', members[1..], m, faults);
      forall other | other !in members
        ensures Untouched(s, s'', other)
      {
        assert members[0] in members && other !in members[1..];
        UntouchedTwice(s, s', s'', other);
      }
    }
  }

  lemma UntouchedTwice(s: State, s': State, s'': State, pubKey: string)
    requires Untouched(s, s', pubKey) && Untouched(s', s'', pubKey)
    ensures Untouched(s, s'', pubKey)
  {
  }

  /** When a fan-out is accepted, every member but the sender has the payload enqueued or queued. */
  lemma {:induction false} FanOutReaches(s: State, members: seq<string>, m: Message, faults: Faults, i: nat)
    requires SessionsSound(s) && NoDuplicates(members) && i < |members| && PersistsOffline(m.kind)
    requires members[i] != "" && members[i] != m.sender
    ensures var (s', ok) := FannedOut(s, true, members, m, true, faults);
            ok ==> Enqueued(s, s', members[i], m.payload) || Queued(s', members[i], m.payload)
    decreases |members|
  {
    hide DeliveredToMember;
    hide SessionsSound;
    hide PersistsOffline;
    hide Offline.Holds;
    hide History.Holds;
    hide Enqueued;
    hide Untouched;
    var (s', ok) := DeliveredToMember(s, true, members[0], m, true, faults);
    var s'' := FannedOut(s', true, members[1..], m, true, faults).0;
    MemberStep(s, members[0], m, faults);
    if i == 0 {
      FanOutKeeps(s', members[1..], m, faults);
      if Enqueued(s, s', members[0], m.payload) {
        EnqueuedStays(s, s', s'', members[0], m.payload);
      }
    } else {
      FanOutReaches(s', members[1..], m, faults, i - 1);
      if Enqueued(s', s'', members[i], m.payload) {
        EnqueuedEarlier(s, s', s'', members[i], m.payload);
      }
    }
  }

  // ----- what a client may rely on -----

  /** The message routed for a client's envelope. */
  function ClientMessage(e: Envelope, key: string, payload: Payload): Message {
    Message(e.kind, key, if IsGroupRouted(e.kind) || IsChannelRouted(e.kind) then "" else e.recipient, payload)
  }

  lemma RoomKindsPersist(kind: string)
    requires IsGroupRouted(kind) || IsChannelRouted(kind)
    ensures PersistsOffline(kind)
  {
  }

  /**
   When a signed-in client's group or channel message is accepted, every listed member other than the
   sender has it on a live session or in the offline queue.
   */
  lemma RoomMessageReachesMembers(s: State, e: Envelope, key: string, members: Option<seq<string>>, faults: Faults)
    requires SessionsSound(s) && (members.Some? ==> NoDuplicates(members.value))
    requires Normalized(e, key).Some? && (IsGroupRouted(e.kind) || IsChannelRouted(e.kind))
    ensures var payload := Normalized(e, key).value;
            var (s', accepted) := Routed(s, true, members, ClientMessage(e, key, payload), true, faults);
            accepted ==>
              && members.Some?
              && forall member :: member in members.value && member != "" && member != key ==>
                   Enqueued(s, s', member, payload) || Queued(s', member, payload)
  {
    hide FannedOut;
    hide SessionsSound;
    hide IsGroupRouted;
    hide IsChannelRouted;
    hide PersistsOffline;
    hide Enqueued;
    hide Queued;
    hide Normalized;
    var m := ClientMessage(e, key, Normalized(e, key).value);
    RoomKindsPersist(e.kind);
    if members.Some? {
      forall member | member in members.value && member != "" && member != key
        ensures var (s', ok) := FannedOut(s, true, members.value, m, true, faults);
                ok ==> Enqueued(s, s', member, m.payload) || Queued(s', member, m.payload)
      {
        var i :| 0 <= i < |members.value| && members.value[i] == member;
        FanOutReaches(s, members.value, m, faults, i);
      }
    }
  }

  lemma ClientFiles(e: Envelope, key: string)
    requires Normalized(e, key).Some? && HasDirectHistory(e.kind)
    ensures !IsGroupRouted(e.kind) && !IsChannelRouted(e.kind)
    ensures var filing := History.FilingOf(ClientMessage(e, key, Normalized(e, key).value));
            && filing.File? && filing.row.thread == History.ThreadOf(key, e.recipient) && filing.row.msgId == e.msgId
            && filing.row.sender == Trim(key) && filing.row.payload == Normalized(e, key).value
  {
    hide IsValidPublicKey;
    hide HasDirectHistory;
    hide History.ThreadOf;
    hide History.FilingOf;
    hide Normalized;
    hide Trim;
    ClientEnvelopeIsFull(e, key);
    NormalizedValue(e, key);
    History.FilingShape(ClientMessage(e, key, Json(e.(sender := key))));
    History.ThreadOfTrimmed(key, e.recipient);
    RecordedKindIsTrimmed(e.kind);
  }

  lemma NormalizedValue(e: Envelope, key: string)
    requires Normalized(e, key).Some?
    ensures Normalized(e, key).value == Json(e.(sender := key))
  {
  }

  lemma ClientEnvelopeIsFull(e: Envelope, key: string)
    requires Normalized(e, key).Some? && HasDirectHistory(e.kind)
    ensures !IsGroupRouted(e.kind) && !IsChannelRouted(e.kind)
    ensures Trim(key) != "" && Trim(e.recipient) != "" && Trim(e.msgId) == e.msgId != ""
  {
    hide IsValidPublicKey;
    hide Trim;
    hide HasDirectHistory;
    hide IsGroupRouted;
    hide IsChannelRouted;
    hide IsRouted;
    hide NeedsMessageId;
    RecordedKinds(e.kind);
    ValidKeyIsNotBlank(key);
    ValidKeyIsNotBlank(e.recipient);
    ValidIdIsTrimmed(e.msgId);
  }

  lemma RecordedKinds(kind: string)
    requires HasDirectHistory(kind) && IsRouted(kind)
    ensures !IsGroupRouted(kind) && !IsChannelRouted(kind) && NeedsMessageId(kind)
  {
  }

  lemma RecordedKindIsTrimmed(kind: string)
    requires HasDirectHistory(kind)
    ensures Trim(kind) != ""
  {
    TrimDropsWhitespace(kind, kind[0]);
  }

  /**
   When a signed-in client's direct message is accepted, it is on a live session of the recipient or in the
   offline queue under its identifier, unless its kind is never kept; and if its kind is recorded, the history
   has a row under the thread of the two accounts and that identifier.
   */
  lemma DirectMessageIsKept(s: State, e: Envelope, key: string, members: Option<seq<string>>, faults: Faults)
    requires SessionsSound(s) && Normalized(e, key).Some? && !IsGroupRouted(e.kind) && !IsChannelRouted(e.kind)
    ensures var payload := Normalized(e, key).value;
            var m := ClientMessage(e, key, payload);
            var (s', accepted) := Routed(s, true, members, m, true, faults);
            accepted ==>
              && (|| Enqueued(s, s', e.recipient, payload)
                  || Queued(s', e.recipient, payload)
                  || !MessagePersistsOffline(m))
              && (HasDirectHistory(e.kind) ==>
                    History.Holds(s'.history.rows, History.ThreadOf(key, e.recipient), e.msgId))
  {
    hide RoutedDirect;
    hide RoutedRoom;
    hide SessionsSound;
    hide HasDirectHistory;
    hide MessagePersistsOffline;
    hide Enqueued;
    hide Queued;
    hide History.Holds;
    hide History.FilingOf;
    hide History.ThreadOf;
    hide IsValidPublicKey;
    var m := ClientMessage(e, key, Normalized(e, key).value);
    assert e.recipient != "" by { ValidKeyIsNotBlank(e.recipient); }
    DirectAcceptedIsKept(s, m, faults);
    if HasDirectHistory(e.kind) {
      ClientFiles(e, key);
      DirectAcceptedIsRecorded(s, m, faults);
    }
  }

  /**
   When a signed-in client's direct message of a recorded kind is accepted, the history holds that payload under
   the sender's name exactly when nothing else was under the thread and identifier before.
   */
  lemma OwnHistoryExactlyWhen(s: State, e: Envelope, key: string, members: Option<seq<string>>, faults: Faults)
    requires History.Sound(s.history) && Normalized(e, key).Some? && HasDirectHistory(e.kind)
    ensures var payload := Normalized(e, key).value;
            var thread := History.ThreadOf(key, e.recipient);
            var (s', accepted) := Routed(s, true, members, ClientMessage(e, key, payload), true, faults);
            accepted ==>
              (History.Records(s'.history.rows, thread, e.msgId, Trim(key), payload) <==>
               History.Admits(s.history.rows, thread, e.msgId, Trim(key), payload))
  {
    hide RoutedDirect;
    hide RoutedRoom;
    hide HasDirectHistory;
    hide History.FilingOf;
    hide History.ThreadOf;
    hide History.Records;
    hide History.Admits;
    hide History.Recorded;
    hide History.Sound;
    hide HistoryRestated;
    hide Listening;
    hide Normalized;
    hide Trim;
    var m := ClientMessage(e, key, Normalized(e, key).value);
    ClientFiles(e, key);
    DirectHistoryIs(s, m, faults);
    var row := History.FilingOf(m).row;
    var filed := s.(history := History.Recorded(s.history, row));
    RestatingKeepsRecords(filed, m, "delivered", faults, row.thread, row.msgId, row.sender, row.payload);
    RestatingKeepsRecords(filed, m, "waiting_delivery", faults, row.thread, row.msgId, row.sender, row.payload);
    History.RecordedExactlyWhen(s.history, row);
  }
}
