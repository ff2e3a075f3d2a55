/**
 From an accepted message to the connection that finally gets it: routing to somebody with no listening session,
 the queue it leaves, and the rounds that drain it (mess/hub.go:369-461 and 576-624; mess/client.go:168-300).
 */
module QueueDelivery {
  import opened Wrappers
  import opened Sequences
  import opened Text
  import opened Envelopes
  import opened Hub
  import opened HubDelivery
  import Offline = OfflineQueue
  import Drain = OfflineDrain
  import History
  import Rooms
  import RoomDelivery

  // ----- every run of the server -----

  ghost predicate Sound(s: State) {
    SessionsSound(s) && Offline.Sound(s.offline) && History.Sound(s.history)
  }

  /**
   What may happen, one step at a time: sessions come and go, a channel with room takes a payload the server sends
   outside routing, a writer takes the first one out, a message is routed, a connection lists its queue, and an
   acknowledgement deletes and marks, if its statements work.
   */
  datatype Op =
    | Join(client: Client)
    | Leave(client: Client)
    | Put(client: Client, payload: Payload)
    | Take(client: Client)
    | Route(message: Message, members: Option<seq<string>>, allowPublish: bool, faults: Faults)
    | List(recipient: string)
    | Acknowledge(recipient: string, msgId: string, deletes: bool, marks: bool)

  function Applied(s: State, hasDb: bool, op: Op): State {
    match op
    case Join(client) => SessionAdded(s, client)
    case Leave(client) => SessionRemoved(s, client)
    case Put(client, payload) =>
      if HasRoom(s, client) then s.(queues := s.queues[client := s.queues[client] + [payload]]) else s
    case Take(client) =>
      if client in s.queues && s.queues[client] != [] then s.(queues := s.queues[client := s.queues[client][1..]])
      else s
    case Route(message, members, allowPublish, faults) => Routed(s, hasDb, members, message, allowPublish, faults).0
    case List(recipient) => s.(offline := Offline.Listed(s.offline, recipient).0)
    case Acknowledge(recipient, msgId, deletes, marks) =>
      s.(offline := if deletes then Offline.Acknowledged(s.offline, recipient, msgId) else s.offline,
         history := if marks then History.MarkedDelivered(s.history, recipient, msgId) else s.history)
  }

  function After(s: State, hasDb: bool, ops: seq<Op>): State
    decreases |ops|
  {
    if ops == [] then s else After(Applied(s, hasDb, ops[0]), hasDb, ops[1..])
  }

  lemma FilingKeepsSound(s: State, m: Message, faults: Faults)
    requires Sound(s) && HistorySaved(s, m, faults).Some?
    ensures Sound(HistorySaved(s, m, faults).value)
  {
    hide History.FilingOf;
    hide History.Recorded;
    hide History.Sound;
    hide SessionsSound;
    FilingKeepsSessions(s, m, faults);
    History.ChangeKeepsSound(s.history, History.Routed(m));
  }

  lemma RestatingKeepsSound(s: State, m: Message, state: string, faults: Faults)
    requires Sound(s)
    ensures Sound(HistoryRestated(s, m, state, faults))
  {
    hide History.StateUpdated;
    hide History.Sound;
    hide SessionsSound;
    hide FirstNonBlank;
    RestatingKeepsSessions(s, m, state, faults);
    if m.payload.Json? {
      var e := m.payload.envelope;
      History.ChangeKeepsSound(s.history, History.SetState(FirstNonBlank(e.sender, m.sender),
                                                           FirstNonBlank(e.recipient, m.recipient), e.msgId, state));
    }
  }

  lemma SendingKeepsSound(s: State, pubKey: string, payload: Payload)
    requires Sound(s)
    ensures Sound(Delivered(s, pubKey, payload))
  {
    hide History.Sound;
    hide SessionsSound;
    DeliveryKeepsSound(s, pubKey, payload);
  }

  lemma QueueingIsSound(s: State, hasDb: bool, m: Message, faults: Faults)
    requires Sound(s) && OfflineSaved(s, hasDb, m, faults).Some?
    ensures Sound(OfflineSaved(s, hasDb, m, faults).value)
  {
    hide Offline.Saved;
    hide Offline.Sound;
    hide History.Sound;
    hide SessionsSound;
    QueueingKeepsSound(s, hasDb, m, faults);
    Offline.SavingKeepsSound(s.offline, m.sender, m.recipient, m.payload);
  }

  lemma DirectKeepsSound(s: State, hasDb: bool, m: Message, allowPublish: bool, faults: Faults)
    requires Sound(s)
    ensures Sound(RoutedDirect(s, hasDb, m, allowPublish, faults).0)
  {
    hide Sound;
    hide HasDirectHistory;
    hide MessagePersistsOffline;
    hide HistorySaved;
    hide HistoryRestated;
    hide OfflineSaved;
    hide Delivered;
    hide Listening;
    var tracked := allowPublish && hasDb && HasDirectHistory(m.kind);
    var saved := if tracked then HistorySaved(s, m, faults) else Some(s);
    if saved.Some? {
      if tracked {
        FilingKeepsSound(s, m, faults);
      }
      var sent := Delivered(saved.value, m.recipient, m.payload);
      SendingKeepsSound(saved.value, m.recipient, m.payload);
      RestatingKeepsSound(sent, m, "delivered", faults);
      var queued := OfflineSaved(sent, hasDb, m, faults);
      if queued.Some? {
        QueueingIsSound(sent, hasDb, m, faults);
        RestatingKeepsSound(queued.value, m, "waiting_delivery", faults);
      }
    }
  }

  lemma MemberKeepsSound(s: State, hasDb: bool, member: string, m: Message, allowPublish: bool, faults: Faults)
    requires Sound(s)
    ensures Sound(DeliveredToMember(s, hasDb, member, m, allowPublish, faults).0)
  {
    hide Sound;
    hide PersistsOffline;
    hide OfflineSaved;
    hide Delivered;
    hide Listening;
    var sent, copy := Delivered(s, member, m.payload), m.(recipient := member);
    SendingKeepsSound(s, member, m.payload);
    if OfflineSaved(sent, hasDb, copy, faults).Some? {
      QueueingIsSound(sent, hasDb, copy, faults);
    }
  }

  lemma {:induction false} FanOutKeepsSound(s: State, hasDb: bool, members: seq<string>, m: Message,
                                            allowPublish: bool, faults: Faults)
    requires Sound(s)
    ensures Sound(FannedOut(s, hasDb, members, m, allowPublish, faults).0)
    decreases |members|
  {
    hide Sound;
    hide DeliveredToMember;
    if members != [] {
      MemberKeepsSound(s, hasDb, members[0], m, allowPublish, faults);
      FanOutKeepsSound(DeliveredToMember(s, hasDb, members[0], m, allowPublish, faults).0, hasDb, members[1..], m,
                       allowPublish, faults);
    }
  }

  lemma RoutingKeepsSound(s: State, hasDb: bool, members: Option<seq<string>>, m: Message, allowPublish: bool,
                          faults: Faults)
    requires Sound(s)
    ensures Sound(Routed(s, hasDb, members, m, allowPublish, faults).0)
  {
    hide Sound;
    hide IsGroupRouted;
    hide IsChannelRouted;
    hide RoutedDirect;
    hide FannedOut;
    DirectKeepsSound(s, hasDb, m, allowPublish, faults);
    if members.Some? {
      FanOutKeepsSound(s, hasDb, members.value, m, allowPublish, faults);
    }
  }

  lemma JoiningKeepsSessions(s: State, client: Client)
    requires SessionsSound(s)
    ensures SessionsSound(SessionAdded(s, client))
  {
  }

  lemma LeavingKeepsSessions(s: State, client: Client)
    requires SessionsSound(s)
    ensures SessionsSound(SessionRemoved(s, client))
  {
  }

  lemma PuttingKeepsSessions(s: State, client: Client, payload: Payload)
    requires SessionsSound(s)
    ensures HasRoom(s, client) ==>
              SessionsSound(s.(queues := s.queues[client := s.queues[client] + [payload]]))
  {
  }

  lemma TakingKeepsSessions(s: State, client: Client)
    requires SessionsSound(s)
    ensures client in s.queues && s.queues[client] != [] ==>
              SessionsSound(s.(queues := s.queues[client := s.queues[client][1..]]))
  {
  }

  lemma StepKeepsSound(s: State, hasDb: bool, op: Op)
    requires Sound(s)
    ensures Sound(Applied(s, hasDb, op))
  {
    hide SessionsSound;
    hide Offline.Sound;
    hide History.Sound;
    hide Routed;
    hide SessionAdded;
    hide SessionRemoved;
    hide Offline.Listed;
    hide Offline.Acknowledged;
    hide History.MarkedDelivered;
    match op
    case Join(client) => JoiningKeepsSessions(s, client); SessionTables(s, client);
    case Leave(client) => LeavingKeepsSessions(s, client); SessionTables(s, client);
    case Put(client, payload) => PuttingKeepsSessions(s, client, payload);
    case Take(client) => TakingKeepsSessions(s, client);
    case Route(message, members, allowPublish, faults) =>
      RoutingKeepsSound(s, hasDb, members, message, allowPublish, faults);
    case List(recipient) => ListingKeepsSound(s.offline, recipient); SessionsIgnoreTables(s, Applied(s, hasDb, op));
    case Acknowledge(recipient, msgId, _, _) =>
      Drain.AcknowledgingKeepsSound(s.offline, recipient, msgId);
      History.ChangeKeepsSound(s.history, History.MarkDelivered(recipient, msgId));
      SessionsIgnoreTables(s, Applied(s, hasDb, op));
  }

  lemma SessionTables(s: State, client: Client)
    ensures SessionAdded(s, client).offline == SessionRemoved(s, client).offline == s.offline
    ensures SessionAdded(s, client).history == SessionRemoved(s, client).history == s.history
  {
  }

  lemma SessionsIgnoreTables(s: State, s': State)
    requires SessionsSound(s) && s'.clients == s.clients && s'.queues == s.queues
    ensures SessionsSound(s')
  {
  }

  lemma ListingKeepsSound(q: Offline.Queue, recipient: string)
    requires Offline.Sound(q)
    ensures Offline.Sound(Offline.Listed(q, recipient).0)
  {
    hide Offline.Sound;
    hide Offline.Batch;
    Drain.WithoutKeepsSound(q, Offline.StaleIds(Offline.Batch(q.rows, recipient), recipient));
  }

  /** Whatever happens on the server, sessions, queue and history stay sound. */
  lemma {:induction false} AlwaysSound(s: State, hasDb: bool, ops: seq<Op>)
    requires Sound(s)
    ensures Sound(After(s, hasDb, ops))
    decreases |ops|
  {
    hide Sound;
    hide Applied;
    if ops != [] {
      StepKeepsSound(s, hasDb, ops[0]);
      AlwaysSound(Applied(s, hasDb, ops[0]), hasDb, ops[1..]);
    }
  }

  lemma IdleIsSound()
    ensures Sound(IDLE)
  {
  }

  // ----- direct messages -----

  ghost predicate IsDirect(e: Envelope) {
    !IsGroupRouted(e.kind) && !IsChannelRouted(e.kind)
  }

  /** An accepted direct message that finds nobody listening is saved in the queue. */
  lemma UnheardIsSaved(s: State, m: Message, faults: Faults)
    requires Listening(s, m.recipient) == {} && MessagePersistsOffline(m) && m.recipient != ""
    ensures var (s', accepted) := RoutedDirect(s, true, m, true, faults);
            && (accepted ==> s'.offline == Offline.Saved(s.offline, m.sender, m.recipient, m.payload))
            && forall key :: Listening(s', key) <= Listening(s, key)
  {
    hide MessagePersistsOffline;
    hide HasDirectHistory;
    hide History.FilingOf;
    hide History.Recorded;
    hide History.StateUpdated;
    hide FirstNonBlank;
    hide Offline.Saved;
  }

  lemma ClientRecipient(e: Envelope, key: string)
    requires Normalized(e, key).Some? && IsDirect(e)
    ensures e.recipient != "" && ClientMessage(e, key, Normalized(e, key).value).recipient == e.recipient
    ensures Normalized(e, key).value == Json(e.(sender := key))
  {
    hide IsValidPublicKey;
    hide IsValidMessageId;
    hide IsRouted;
    hide IsGroupRouted;
    hide IsChannelRouted;
    ValidKeyIsNotBlank(e.recipient);
  }

  /**
   The payload of an accepted direct message that finds nobody listening is the one the queue holds for the
   recipient exactly when the queue admitted it.
   */
  lemma DirectStoredExactlyWhen(s: State, e: Envelope, key: string, members: Option<seq<string>>, faults: Faults)
    requires Sound(s) && Normalized(e, key).Some? && IsDirect(e) && Listening(s, e.recipient) == {}
    requires MessagePersistsOffline(ClientMessage(e, key, Normalized(e, key).value))
    ensures var payload := Normalized(e, key).value;
            var (s', accepted) := Routed(s, true, members, ClientMessage(e, key, payload), true, faults);
            accepted ==>
              (Offline.Stores(s'.offline.rows, key, e.recipient, payload) <==>
               Offline.Admits(s.offline.rows, key, e.recipient, payload))
  {
    hide RoutedDirect;
    hide RoutedRoom;
    hide Listening;
    hide Normalized;
    hide MessagePersistsOffline;
    hide Offline.Saved;
    hide Offline.Stores;
    hide Offline.Admits;
    hide Offline.Sound;
    ClientRecipient(e, key);
    UnheardIsSaved(s, ClientMessage(e, key, Normalized(e, key).value), faults);
    Offline.StoredExactlyWhen(s.offline, key, e.recipient, Normalized(e, key).value);
  }

  /**
   An accepted direct message that finds nobody listening is sent by enough rounds exactly once, and is then gone,
   exactly when the queue admitted it, it may be shown to the recipient, and the recipient's key has no blank ends.
   */
  lemma DirectIsSentOnceExactlyWhen(s: State, e: Envelope, key: string, members: Option<seq<string>>, faults: Faults,
                                    n: nat)
    requires Sound(s) && Normalized(e, key).Some? && IsDirect(e) && Listening(s, e.recipient) == {}
    requires MessagePersistsOffline(ClientMessage(e, key, Normalized(e, key).value))
    ensures var payload := Normalized(e, key).value;
            var (s', accepted) := Routed(s, true, members, ClientMessage(e, key, payload), true, faults);
            accepted && 1000 * n >= |Offline.RowsFor(s'.offline.rows, e.recipient)| ==>
              (Drain.SentOnceThenGone(s'.offline, e.recipient, n, key, payload) <==>
               && Offline.Admits(s.offline.rows, key, e.recipient, payload)
               && Drain.IsShown(e, key, e.recipient)
               && Drain.IsAddressable(e.recipient))
  {
    hide RoutedDirect;
    hide RoutedRoom;
    hide Listening;
    hide Normalized;
    hide MessagePersistsOffline;
    hide Offline.Saved;
    hide Offline.RowsFor;
    hide Offline.Admits;
    hide Offline.Sound;
    hide Drain.SentOnceThenGone;
    hide Drain.IsShown;
    hide Drain.IsAddressable;
    ClientRecipient(e, key);
    var payload := Normalized(e, key).value;
    UnheardIsSaved(s, ClientMessage(e, key, payload), faults);
    if 1000 * n >=
       |Offline.RowsFor(Offline.Saved(s.offline, key, e.recipient, payload).rows, e.recipient)| {
      Drain.QueuedMessageIsSentOnceExactlyWhen(s.offline, e, key, e.recipient, n);
    }
  }

  /** Kept for later by the rules of its kind. */
  ghost predicate IsKept(e: Envelope) {
    !IsTransientKind(e.kind) && (e.kind == "session_reset" ==> IsPlain(e.msgId, 128, "-_:."))
  }

  lemma KeptExactlyWhen(e: Envelope, m: Message)
    requires m.kind == e.kind && m.payload.Json? && m.payload.envelope.msgId == e.msgId
    ensures MessagePersistsOffline(m) <==> IsKept(e)
  {
    hide IsPlain;
    hide IsValidMessageId;
    hide PersistsOffline;
    hide IsTransientKind;
    KindsAre(e.kind);
    MessageIdExactlyWhen(e.msgId);
    assert !IsTransientKind("session_reset") by { SessionResets(); }
  }

  lemma SessionResets()
    ensures !IsTransientKind("session_reset")
  {
  }

  /** The message that a client's complete envelope becomes. */
  function MessageOf(e: Envelope, key: string): Message {
    Message(e.kind, key, e.recipient, Json(e.(sender := key)))
  }

  lemma CompleteIsClientMessage(e: Envelope, key: string)
    requires IsKey(key) && IsComplete(e) && !IsRoomKind(e.kind)
    ensures Normalized(e, key) == Some(MessageOf(e, key).payload) && IsDirect(e) && e.recipient != ""
    ensures ClientMessage(e, key, MessageOf(e, key).payload) == MessageOf(e, key)
  {
    hide IsKey;
    hide IsComplete;
    hide Normalized;
    hide IsRoomKind;
    hide IsGroupRouted;
    hide IsChannelRouted;
    RoutedExactlyWhen(e, key);
    KindsAre(e.kind);
    ClientRecipient(e, key);
  }

  /**
   A client's complete message to somebody nobody listens for, kind by kind: when it is accepted, that it is then
   in the queue under its identifier unless its kind is transient, and in the history if its kind is recorded.
   */
  lemma UnheardByKind(s: State, e: Envelope, key: string, members: Option<seq<string>>, faults: Faults)
    requires IsKey(key) && IsComplete(e) && !IsRoomKind(e.kind) && Listening(s, e.recipient) == {}
    ensures var (s', accepted) := Routed(s, true, members, MessageOf(e, key), true, faults);
            && (accepted <==> (IsRecordedKind(e.kind) ==> !faults.history)
                              && (IsKept(e) ==> e.recipient !in faults.offline))
            && (accepted && IsKept(e) ==> Offline.Holds(s'.offline.rows, e.recipient, e.msgId))
            && (!IsKept(e) ==> s'.offline == s.offline)
            && (accepted && IsRecordedKind(e.kind) ==>
                  History.Holds(s'.history.rows, History.ThreadOf(key, e.recipient), e.msgId))
            && (!IsRecordedKind(e.kind) ==> s'.history == s.history)
  {
    hide IsKey;
    hide IsComplete;
    hide IsRoomKind;
    hide IsRecordedKind;
    hide HasDirectHistory;
    hide IsKept;
    hide MessagePersistsOffline;
    hide RoutedDirect;
    hide RoutedRoom;
    hide Listening;
    hide Normalized;
    hide History.FilingOf;
    hide History.ThreadOf;
    hide History.Holds;
    hide Offline.Saved;
    hide Offline.Holds;
    var m := MessageOf(e, key);
    CompleteIsClientMessage(e, key);
    KeptExactlyWhen(e, m);
    RecordedByKind(e, key);
    DirectAcceptedExactlyWhen(s, m, faults);
    UnkeptIsNotSaved(s, m, faults);
    if IsKept(e) {
      UnheardIsSaved(s, m, faults);
      Offline.SavedHolds(s.offline, key, e.recipient, m.payload);
    }
    if IsRecordedKind(e.kind) {
      ClientFiles(e, key);
      DirectAcceptedIsRecorded(s, m, faults);
    }
  }

  lemma RecordedByKind(e: Envelope, key: string)
    requires Normalized(e, key).Some?
    ensures HasDirectHistory(e.kind) <==> IsRecordedKind(e.kind)
  {
    hide IsRecordedKind;
    hide HasDirectHistory;
    KindsAre(e.kind);
    Drain.NormalizedShape(e, key);
  }

  /** What is heard or not kept leaves the queue as it was, and what is not recorded the history. */
  lemma UnkeptIsNotSaved(s: State, m: Message, faults: Faults)
    ensures var s' := RoutedDirect(s, true, m, true, faults).0;
            && (Listening(s, m.recipient) != {} || !MessagePersistsOffline(m) ==> s'.offline == s.offline)
            && (!HasDirectHistory(m.kind) ==> s'.history == s.history)
  {
    hide MessagePersistsOffline;
    hide HasDirectHistory;
    hide History.FilingOf;
    hide History.Recorded;
    hide History.StateUpdated;
    hide FirstNonBlank;
    hide Offline.Saved;
    var saved := AfterFiling(s, m, faults);
    assert Listening(saved, m.recipient) == Listening(s, m.recipient);
  }

  /** If somebody listens, every session with room gets the payload and the queue is not used. */
  lemma HeardByKind(s: State, e: Envelope, key: string, members: Option<seq<string>>, faults: Faults)
    requires SessionsSound(s)
    requires IsKey(key) && IsComplete(e) && !IsRoomKind(e.kind) && Listening(s, e.recipient) != {}
    ensures var (s', accepted) := Routed(s, true, members, MessageOf(e, key), true, faults);
            && (accepted <==> (IsRecordedKind(e.kind) ==> !faults.history))
            && (accepted ==> Enqueued(s, s', e.recipient, MessageOf(e, key).payload))
            && s'.offline == s.offline
            && (accepted && IsRecordedKind(e.kind) ==>
                  History.Holds(s'.history.rows, History.ThreadOf(key, e.recipient), e.msgId))
  {
    hide IsKey;
    hide IsComplete;
    hide IsRoomKind;
    hide IsRecordedKind;
    hide HasDirectHistory;
    hide MessagePersistsOffline;
    hide RoutedDirect;
    hide RoutedRoom;
    hide Listening;
    hide SessionsSound;
    hide Enqueued;
    hide Normalized;
    hide History.FilingOf;
    hide History.ThreadOf;
    hide History.Holds;
    var m := MessageOf(e, key);
    CompleteIsClientMessage(e, key);
    RecordedByKind(e, key);
    DirectAcceptedExactlyWhen(s, m, faults);
    UnkeptIsNotSaved(s, m, faults);
    HeardIsEnqueued(s, m, faults);
    if IsRecordedKind(e.kind) {
      ClientFiles(e, key);
      DirectAcceptedIsRecorded(s, m, faults);
    }
  }

  lemma HeardIsEnqueued(s: State, m: Message, faults: Faults)
    requires SessionsSound(s) && Listening(s, m.recipient) != {}
    ensures var (s', accepted) := RoutedDirect(s, true, m, true, faults);
            accepted ==> Enqueued(s, s', m.recipient, m.payload)
  {
    hide MessagePersistsOffline;
    hide HasDirectHistory;
    hide HistorySaved;
    hide History.StateUpdated;
    hide FirstNonBlank;
    hide Delivered;
    hide Listening;
    hide OfflineSaved;
    hide SessionsSound;
    var filed := AfterFiling(s, m, faults);
    FilingFiles(s, m, faults);
    FiledSound(s, filed);
    DeliveryEnqueues(filed, m.recipient, m.payload);
  }

  // ----- groups and channels -----

  lemma SameRowsSameAnswers(a: seq<Offline.Row>, b: seq<Offline.Row>, sender: string, recipient: string,
                            payload: Payload)
    requires Offline.SameRowsFor(a, b, recipient)
    ensures Offline.Stores(a, sender, recipient, payload) <==> Offline.Stores(b, sender, recipient, payload)
    ensures Offline.Admits(a, sender, recipient, payload) <==> Offline.Admits(b, sender, recipient, payload)
  {
    hide Trim;
  }

  lemma SameRowsTwice(a: seq<Offline.Row>, b: seq<Offline.Row>, c: seq<Offline.Row>, recipient: string)
    ensures Offline.SameRowsFor(a, a, recipient)
    ensures Offline.SameRowsFor(a, b, recipient) && Offline.SameRowsFor(b, c, recipient) ==>
              Offline.SameRowsFor(a, c, recipient)
  {
  }

  lemma UntouchedListens(s: State, s': State, pubKey: string)
    requires Untouched(s, s', pubKey)
    ensures Listening(s', pubKey) == Listening(s, pubKey)
  {
  }

  /** One member: nobody else's rows change, and a member nobody listens for has the payload saved. */
  lemma MemberOffline(s: State, member: string, m: Message, faults: Faults)
    ensures var (s', ok) := DeliveredToMember(s, true, member, m, true, faults);
            && (forall other :: other != member ==> Offline.SameRowsFor(s.offline.rows, s'.offline.rows, other))
            && (ok && member != "" && member != m.sender && PersistsOffline(m.kind) && Listening(s, member) == {} ==>
                  s'.offline == Offline.Saved(s.offline, m.sender, member, m.payload))
  {
    hide PersistsOffline;
    hide Delivered;
    hide Listening;
    hide Offline.Saved;
    DeliveryKeepsTables(s, true, m.(recipient := member), faults);
    forall other | other != member
      ensures Offline.SameRowsFor(s.offline.rows, Offline.Saved(s.offline, m.sender, member, m.payload).rows, other)
    {
      Offline.SavingConcernsOne(s.offline, m.sender, member, m.payload, other);
    }
  }

  lemma {:induction false} FanOutConcernsMembers(s: State, members: seq<string>, m: Message, faults: Faults,
                                                 other: string)
    requires other !in members
    ensures Offline.SameRowsFor(s.offline.rows, FannedOut(s, true, members, m, true, faults).0.offline.rows, other)
    decreases |members|
  {
    hide DeliveredToMember;
    hide Offline.SameRowsFor;
    if members == [] {
      SameRowsTwice(s.offline.rows, s.offline.rows, s.offline.rows, other);
    } else {
      var s' := DeliveredToMember(s, true, members[0], m, true, faults).0;
      var s'' := FannedOut(s', true, members[1..], m, true, faults).0;
      assert members[0] in members && other !in members[1..];
      MemberOffline(s, members[0], m, faults);
      FanOutConcernsMembers(s', members[1..], m, faults, other);
      SameRowsTwice(s.offline.rows, s'.offline.rows, s''.offline.rows, other);
    }
  }

  /** After an accepted fan-out, a member nobody listened for has the payload stored exactly when it was admitted. */
  lemma {:induction false} FanOutStoresExactlyWhen(s: State, members: seq<string>, m: Message, faults: Faults, i: nat)
    requires Sound(s) && NoDuplicates(members) && i < |members| && PersistsOffline(m.kind)
    requires members[i] != "" && members[i] != m.sender && Listening(s, members[i]) == {}
    ensures var (s', ok) := FannedOut(s, true, members, m, true, faults);
            ok ==> (Offline.Stores(s'.offline.rows, m.sender, members[i], m.payload) <==>
                    Offline.Admits(s.offline.rows, m.sender, members[i], m.payload))
    decreases |members|
  {
    hide DeliveredToMember;
    hide SessionsSound;
    hide Offline.Sound;
    hide History.Sound;
    hide PersistsOffline;
    hide Listening;
    hide Enqueued;
    hide Queued;
    hide NothingLost;
    hide Untouched;
    hide Offline.Saved;
    hide Offline.Stores;
    hide Offline.Admits;
    hide Offline.SameRowsFor;
    var s' := DeliveredToMember(s, true, members[0], m, true, faults).0;
    var s'' := FannedOut(s', true, members[1..], m, true, faults).0;
    MemberOffline(s, members[0], m, faults);
    if i == 0 {
      Offline.StoredExactlyWhen(s.offline, m.sender, members[0], m.payload);
      FanOutConcernsMembers(s', members[1..], m, faults, members[0]);
      SameRowsSameAnswers(s'.offline.rows, s''.offline.rows, m.sender, members[0], m.payload);
    } else {
      MemberStep(s, members[0], m, faults);
      MemberKeepsSound(s, true, members[0], m, true, faults);
      UntouchedListens(s, s', members[i]);
      FanOutStoresExactlyWhen(s', members[1..], m, faults, i - 1);
      SameRowsSameAnswers(s.offline.rows, s'.offline.rows, m.sender, members[i], m.payload);
    }
  }

  /** A fan-out is accepted exactly when every member is heard, is the sender, or can be queued for. */
  lemma {:induction false} FanOutAcceptedExactlyWhen(s: State, members: seq<string>, m: Message, faults: Faults)
    requires SessionsSound(s) && NoDuplicates(members) && "" !in members && PersistsOffline(m.kind)
    ensures FannedOut(s, true, members, m, true, faults).1 <==>
              forall k :: k in members ==> Listening(s, k) != {} || k == m.sender || k !in faults.offline
    decreases |members|
  {
    hide DeliveredToMember;
    hide SessionsSound;
    hide PersistsOffline;
    hide Listening;
    hide Enqueued;
    hide Queued;
    hide NothingLost;
    hide Untouched;
    if members != [] {
      var s' := DeliveredToMember(s, true, members[0], m, true, faults).0;
      MemberStep(s, members[0], m, faults);
      MemberAccepted(s, members[0], m, faults);
      forall k | k in members[1..]
        ensures k in members && Listening(s', k) == Listening(s, k)
      {
        UntouchedListens(s, s', k);
      }
      FanOutAcceptedExactlyWhen(s', members[1..], m, faults);
      assert forall k :: k in members <==> k == members[0] || k in members[1..];
    }
  }

  lemma MemberAccepted(s: State, member: string, m: Message, faults: Faults)
    requires member != "" && PersistsOffline(m.kind)
    ensures DeliveredToMember(s, true, member, m, true, faults).1 <==>
              Listening(s, member) != {} || member == m.sender || member !in faults.offline
  {
    hide PersistsOffline;
    hide Delivered;
    hide Listening;
    hide Offline.Saved;
  }

  /** The message that a client's complete envelope to a room becomes. */
  function RoomMessageOf(e: Envelope, key: string): Message {
    Message(e.kind, key, "", Json(e.(sender := key)))
  }

  lemma CompleteIsRoomMessage(e: Envelope, key: string)
    requires IsKey(key) && IsComplete(e) && IsRoomKind(e.kind)
    ensures Normalized(e, key) == Some(RoomMessageOf(e, key).payload) && !IsDirect(e) && e.groupId != ""
    ensures ClientMessage(e, key, RoomMessageOf(e, key).payload) == RoomMessageOf(e, key)
  {
    hide IsKey;
    hide Normalized;
    hide IsRoomKind;
    hide IsGroupRouted;
    hide IsChannelRouted;
    hide NeedsOf;
    hide IsPlain;
    RoutedExactlyWhen(e, key);
    KindsAre(e.kind);
  }

  /**
   A client's complete message to a room: it is accepted exactly when the members can be listed and each of them is
   heard, is the sender, or can be queued for; and then each but the sender has it on every session with room, or in
   the queue under its identifier.
   */
  lemma RoomAcceptedExactlyWhen(s: State, e: Envelope, key: string, members: Option<seq<string>>, faults: Faults)
    requires SessionsSound(s) && (members.Some? ==> NoDuplicates(members.value) && "" !in members.value)
    requires IsKey(key) && IsComplete(e) && IsRoomKind(e.kind)
    ensures var (s', accepted) := Routed(s, true, members, RoomMessageOf(e, key), true, faults);
            && (accepted <==>
                  && members.Some?
                  && forall k :: k in members.value ==> Listening(s, k) != {} || k == key || k !in faults.offline)
            && (accepted ==>
                  forall k :: k in members.value && k != key ==>
                    || Enqueued(s, s', k, RoomMessageOf(e, key).payload)
                    || Offline.Holds(s'.offline.rows, k, e.msgId))
  {
    hide IsKey;
    hide IsComplete;
    hide IsRoomKind;
    hide IsGroupRouted;
    hide IsChannelRouted;
    hide Normalized;
    hide FannedOut;
    hide RoutedDirect;
    hide SessionsSound;
    hide PersistsOffline;
    hide Listening;
    hide Enqueued;
    hide Offline.Holds;
    CompleteIsRoomMessage(e, key);
    RoomKindsPersist(e.kind);
    RoomMessageReachesMembers(s, e, key, members, faults);
    if members.Some? {
      FanOutAcceptedExactlyWhen(s, members.value, RoomMessageOf(e, key), faults);
    }
  }

  lemma RoomEnvelopeIsShown(e: Envelope, key: string, recipient: string)
    requires Normalized(e, key).Some? && !IsDirect(e)
    ensures Drain.IsShown(e, key, recipient)
  {
    hide IsValidPublicKey;
    hide IsValidMessageId;
    hide Trim;
  }

  /**
   The same for a listed member of a room: with nobody listening for the member, an accepted message is sent to
   the member exactly once and then gone exactly when the queue admitted it and the member's key has no blank ends.
   */
  lemma CopyIsSentOnceExactlyWhen(s: State, e: Envelope, key: string, members: seq<string>, faults: Faults,
                                  member: string, n: nat)
    requires Sound(s) && Normalized(e, key).Some? && !IsDirect(e) && NoDuplicates(members)
    requires member in members && member != "" && member != key && Listening(s, member) == {}
    ensures var payload := Normalized(e, key).value;
            var (s', accepted) := Routed(s, true, Some(members), ClientMessage(e, key, payload), true, faults);
            accepted && 1000 * n >= |Offline.RowsFor(s'.offline.rows, member)| ==>
              (Drain.SentOnceThenGone(s'.offline, member, n, key, payload) <==>
               && Offline.Admits(s.offline.rows, key, member, payload)
               && Drain.IsAddressable(member))
  {
    hide RoutedDirect;
    hide FannedOut;
    hide Listening;
    hide Normalized;
    hide PersistsOffline;
    hide IsGroupRouted;
    hide IsChannelRouted;
    hide SessionsSound;
    hide Offline.RowsFor;
    hide Offline.Stores;
    hide Offline.Admits;
    hide Offline.Sound;
    hide History.Sound;
    hide Drain.SentOnceThenGone;
    hide Drain.IsShown;
    hide Drain.IsAddressable;
    var payload := Normalized(e, key).value;
    var m := ClientMessage(e, key, payload);
    var (s', accepted) := Routed(s, true, Some(members), m, true, faults);
    if accepted && 1000 * n >= |Offline.RowsFor(s'.offline.rows, member)| {
      RoomKindsPersist(e.kind);
      var i :| 0 <= i < |members| && members[i] == member;
      FanOutStoresExactlyWhen(s, members, m, faults, i);
      RoutingKeepsSound(s, true, Some(members), m, true, faults);
      RoomEnvelopeIsShown(e, key, member);
      Drain.StoredIsSentOnceExactlyWhen(s'.offline, e, key, member, n);
    }
  }

  /** And so for every member the room has after any requests of signed-in users. */
  lemma MemberIsSentOnceExactlyWhen(kind: Rooms.Kind, steps: seq<Rooms.Step>, s: State, e: Envelope, key: string,
                                    members: Option<seq<string>>, faults: Faults, member: string, n: nat)
    requires RoomDelivery.SignedIn(steps) && Sound(s)
    requires Normalized(e, key).Some? && RoomDelivery.IsOfKind(kind, e.kind)
    requires members.Some? ==>
               RoomDelivery.Lists(Rooms.After(kind, Rooms.NO_ROOMS, steps), e.groupId, members.value)
    requires (e.groupId, member) in Rooms.After(kind, Rooms.NO_ROOMS, steps).rows
    requires member != key && Listening(s, member) == {}
    ensures var payload := Normalized(e, key).value;
            var (s', accepted) := Routed(s, true, members, ClientMessage(e, key, payload), true, faults);
            accepted && 1000 * n >= |Offline.RowsFor(s'.offline.rows, member)| ==>
              (Drain.SentOnceThenGone(s'.offline, member, n, key, payload) <==>
               && Offline.Admits(s.offline.rows, key, member, payload)
               && Drain.IsAddressable(member))
  {
    hide Rooms.After;
    hide RoutedDirect;
    hide FannedOut;
    hide Listening;
    hide Sound;
    hide Normalized;
    hide IsGroupRouted;
    hide IsChannelRouted;
    hide IsValidPublicKey;
    hide Offline.RowsFor;
    hide Offline.Admits;
    hide Drain.SentOnceThenGone;
    hide Drain.IsAddressable;
    RoomDelivery.NeverBlank(kind, Rooms.NO_ROOMS, steps);
    if members.Some? {
      CopyIsSentOnceExactlyWhen(s, e, key, members.value, faults, member, n);
    }
  }

  // ----- inputs on which an accepted payload is dropped -----

  const NO_FAULTS := Faults(false, false, {})

  /** Every sender names their first message m1. */
  function Note(from: char, to: char, text: string): Envelope {
    Envelope("message", "m1", "", SampleKey(to), "", SampleKey(from), text)
  }

  function SentNote(s: State, from: char, to: char, text: string): (State, bool) {
    Routed(s, true, None, ClientMessage(Note(from, to, text), SampleKey(from), Json(Note(from, to, text))), true,
           NO_FAULTS)
  }

  lemma NoteIsRouted(from: char, to: char, text: string)
    requires IsBase64Char(from) && IsBase64Char(to) && text in ["x", "y"]
    ensures Normalized(Note(from, to, text), SampleKey(from)) == Some(Json(Note(from, to, text)))
    ensures IsDirect(Note(from, to, text)) && HasDirectHistory("message")
    ensures MessagePersistsOffline(ClientMessage(Note(from, to, text), SampleKey(from), Json(Note(from, to, text))))
  {
    hide IsValidPublicKey;
    hide IsBase64Char;
    hide SampleKey;
    hide IsRouted;
    hide IsGroupRouted;
    hide IsChannelRouted;
    hide NeedsTarget;
    hide NeedsMessageId;
    hide NeedsData;
    SampleKeyIsValid(from);
    SampleKeyIsValid(to);
    Drain.MessagesAreDirect();
    Drain.MessagesAreRouted();
    assert IsValidMessageId("m1");
    AsciiUtf8Len(text);
  }

  /** A note is accepted whatever the state, and is saved in the queue if nobody listens. */
  lemma NoteIsAccepted(s: State, from: char, to: char, text: string)
    requires IsBase64Char(from) && IsBase64Char(to) && text in ["x", "y"]
    requires Sound(s) && Listening(s, SampleKey(to)) == {}
    ensures var (s', accepted) := SentNote(s, from, to, text);
            && accepted && Sound(s')
            && s'.offline == Offline.Saved(s.offline, SampleKey(from), SampleKey(to), Json(Note(from, to, text)))
            && forall key :: Listening(s', key) <= Listening(s, key)
  {
    hide IsBase64Char;
    hide SampleKey;
    hide Normalized;
    hide Sound;
    hide RoutedDirect;
    hide Listening;
    hide HasDirectHistory;
    hide MessagePersistsOffline;
    hide History.FilingOf;
    hide Offline.Saved;
    hide IsGroupRouted;
    hide IsChannelRouted;
    var e, key := Note(from, to, text), SampleKey(from);
    var m := ClientMessage(e, key, Json(e));
    NoteIsRouted(from, to, text);
    ClientFiles(e, key);
    ClientRecipient(e, key);
    DirectAcceptedExactlyWhen(s, m, NO_FAULTS);
    UnheardIsSaved(s, m, NO_FAULTS);
    RoutingKeepsSound(s, true, None, m, true, NO_FAULTS);
  }

  /** Alice's and Carol's notes to Bob are both accepted, and the queue does not hold Carol's. */
  lemma AnotherSenderBlocks()
    ensures var (s, first) := SentNote(IDLE, 'A', 'B', "x");
            var (s', second) := SentNote(s, 'C', 'B', "y");
            && first && second && s'.offline == s.offline
            && !Offline.Stores(s'.offline.rows, SampleKey('C'), SampleKey('B'), Json(Note('C', 'B', "y")))
  {
    hide SentNote;
    hide Sound;
    hide Listening;
    hide SampleKey;
    hide Offline.Saved;
    hide Offline.Stores;
    IdleIsSound();
    NobodyIsIdle();
    NoteIsAccepted(IDLE, 'A', 'B', "x");
    NoteIsAccepted(SentNote(IDLE, 'A', 'B', "x").0, 'C', 'B', "y");
    SampleKeysDiffer('A', 'C');
    SecondSenderIsDropped(SampleKey('A'), SampleKey('C'), SampleKey('B'), Json(Note('A', 'B', "x")),
                          Json(Note('C', 'B', "y")));
  }

  lemma SecondSenderIsDropped(first: string, second: string, recipient: string, p1: Payload, p2: Payload)
    requires first != second && MessageIdOf(p1) == MessageIdOf(p2)
    ensures var q := Offline.Saved(Offline.EMPTY, first, recipient, p1);
            Offline.Saved(q, second, recipient, p2) == q && !Offline.Stores(q.rows, second, recipient, p2)
  {
    hide Trim;
    var q := Offline.Saved(Offline.EMPTY, first, recipient, p1);
    assert q.rows == [Offline.Row(1, first, recipient, MessageIdOf(p1), p1)];
    assert Offline.IsFor(q.rows[0], recipient, MessageIdOf(p2));
  }

  lemma NobodyIsIdle()
    ensures forall key :: Listening(IDLE, key) == {}
  {
  }

  lemma NoteIsRecordedExactlyWhen(s: State, from: char, to: char, text: string)
    requires IsBase64Char(from) && IsBase64Char(to) && text in ["x", "y"]
    requires Sound(s) && SentNote(s, from, to, text).1
    ensures var key, thread := SampleKey(from), History.ThreadOf(SampleKey(from), SampleKey(to));
            var payload, s' := Json(Note(from, to, text)), SentNote(s, from, to, text).0;
            (History.Records(s'.history.rows, thread, "m1", key, payload) <==>
             History.Admits(s.history.rows, thread, "m1", key, payload))
  {
    hide IsBase64Char;
    hide SampleKey;
    hide Normalized;
    hide Routed;
    hide HasDirectHistory;
    hide History.ThreadOf;
    hide History.Records;
    hide History.Admits;
    hide History.Sound;
    NoteIsRouted(from, to, text);
    SampleKeyIsValid(from);
    OwnHistoryExactlyWhen(s, Note(from, to, text), SampleKey(from), None, NO_FAULTS);
  }

  /** Alice's note to Bob and Bob's to Alice are both accepted, and the history does not hold Bob's. */
  lemma PeersIdHidesHistory()
    ensures var (s, first) := SentNote(IDLE, 'A', 'B', "x");
            var (s', second) := SentNote(s, 'B', 'A', "y");
            && first && second
            && !History.Records(s'.history.rows, History.ThreadOf(SampleKey('B'), SampleKey('A')), "m1",
                                SampleKey('B'), Json(Note('B', 'A', "y")))
  {
    hide SentNote;
    hide Sound;
    hide Listening;
    hide SampleKey;
    hide History.ThreadOf;
    var s := SentNote(IDLE, 'A', 'B', "x").0;
    IdleIsSound();
    NobodyIsIdle();
    NoteIsAccepted(IDLE, 'A', 'B', "x");
    NoteIsAccepted(s, 'B', 'A', "y");
    NoteIsRecordedExactlyWhen(IDLE, 'A', 'B', "x");
    NoteIsRecordedExactlyWhen(s, 'B', 'A', "y");
    History.ThreadIsUnorderedPair(SampleKey('A'), SampleKey('B'), SampleKey('B'), SampleKey('A'));
    SampleKeysDiffer('A', 'B');
  }

  lemma SampleKeysDiffer(a: char, b: char)
    requires a != b
    ensures SampleKey(a) != SampleKey(b)
  {
    assert SampleKey(a)[0] == a && SampleKey(b)[0] == b;
  }
}
