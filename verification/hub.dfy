/** Routing to live sessions with the offline queue as the fall-back (mess/hub.go:200-261 and 369-624). */
module Hub {
  import opened Wrappers
  import opened Text
  import opened Envelopes
  import Offline = OfflineQueue
  import History

  const CHANNEL_SIZE := 256

  /** A websocket session of one account. */
  datatype Client = Client(pubKey: string, number: nat)

  /** The sessions by account, their outgoing channels, and the two tables routing writes. */
  datatype State = State(clients: map<string, set<Client>>, queues: map<Client, seq<Payload>>,
                         offline: Offline.Queue, history: History.Table)

  const IDLE := State(map[], map[], Offline.EMPTY, History.EMPTY)

  /** Which database statements fail: the history insert, its state update, and queueing for some recipients. */
  datatype Faults = Faults(history: bool, state: bool, offline: set<string>)

  // ----- sessions -----

  function SessionsOf(s: State, pubKey: string): set<Client> {
    if pubKey in s.clients then s.clients[pubKey] else {}
  }

  function SessionAdded(s: State, client: Client): State {
    if client.pubKey == "" then s
    else s.(clients := s.clients[client.pubKey := SessionsOf(s, client.pubKey) + {client}],
            queues := if client in s.queues then s.queues else s.queues[client := []])
  }

  function WithSessions(s: State, pubKey: string, sessions: set<Client>): State {
    s.(clients := if sessions == {} then s.clients - {pubKey} else s.clients[pubKey := sessions])
  }

  function SessionRemoved(s: State, client: Client): State {
    if client.pubKey == "" || client.pubKey !in s.clients then s
    else WithSessions(s, client.pubKey, s.clients[client.pubKey] - {client})
  }

  // ----- delivery -----

  predicate HasRoom(s: State, client: Client) {
    client in s.queues && |s.queues[client]| < CHANNEL_SIZE
  }

  function Listening(s: State, pubKey: string): set<Client> {
    set c | c in SessionsOf(s, pubKey) && HasRoom(s, c)
  }

  /** Every session with room gets the payload; every full one is dropped. */
  function Delivered(s: State, pubKey: string, payload: Payload): State {
    if SessionsOf(s, pubKey) == {} then s
    else
      var listening := Listening(s, pubKey);
      WithSessions(s, pubKey, listening)
        .(queues := map c | c in s.queues :: if c in listening then s.queues[c] + [payload] else s.queues[c])
  }

  // ----- direct messages -----

  /** The history insert for a direct message; nothing if it fails. */
  function HistorySaved(s: State, m: Message, faults: Faults): Option<State> {
    match History.FilingOf(m)
    case Skip => Some(s)
    case Refuse => None
    case File(row) => if faults.history then None else Some(s.(history := History.Recorded(s.history, row)))
  }

  function HistoryRestated(s: State, m: Message, state: string, faults: Faults): State {
    if m.payload.Raw? || faults.state then s
    else
      var e := m.payload.envelope;
      s.(history := History.StateUpdated(s.history, FirstNonBlank(e.sender, m.sender),
                                         FirstNonBlank(e.recipient, m.recipient), e.msgId, state))
  }

  function OfflineSaved(s: State, hasDb: bool, m: Message, faults: Faults): Option<State> {
    if !hasDb || m.recipient == "" then Some(s)
    else if m.recipient in faults.offline then None
    else Some(s.(offline := Offline.Saved(s.offline, m.sender, m.recipient, m.payload)))
  }

  function RoutedDirect(s: State, hasDb: bool, m: Message, allowPublish: bool, faults: Faults): (State, bool) {
    var tracked := allowPublish && hasDb && HasDirectHistory(m.kind);
    var saved := if tracked then HistorySaved(s, m, faults) else Some(s);
    if saved.None? then (s, false)
    else
      var live := Listening(saved.value, m.recipient) != {};
      var s' := Delivered(saved.value, m.recipient, m.payload);
      if live then (if tracked then HistoryRestated(s', m, "delivered", faults) else s', true)
      else if allowPublish && MessagePersistsOffline(m) then
        var queued := OfflineSaved(s', hasDb, m, faults);
        if queued.None? then (s', false)
        else (if tracked then HistoryRestated(queued.value, m, "waiting_delivery", faults) else queued.value, true)
      else (s', !MessagePersistsOffline(m))
  }

  // ----- groups and channels -----

  function DeliveredToMember(s: State, hasDb: bool, member: string, m: Message, allowPublish: bool, faults: Faults)
    : (State, bool)
  {
    if member == "" then (s, true)
    else
      var s' := Delivered(s, member, m.payload);
      if Listening(s, member) != {} then (s', true)
      else if allowPublish && member != m.sender && PersistsOffline(m.kind) then
        var queued := OfflineSaved(s', hasDb, m.(recipient := member), faults);
        if queued.None? then (s', false) else (queued.value, true)
      else (s', true)
  }

  function FannedOut(s: State, hasDb: bool, members: seq<string>, m: Message, allowPublish: bool, faults: Faults)
    : (State, bool)
    decreases |members|
  {
    if members == [] then (s, true)
    else
      var (s', ok) := DeliveredToMember(s, hasDb, members[0], m, allowPublish, faults);
      var (s'', rest) := FannedOut(s', hasDb, members[1..], m, allowPublish, faults);
      (s'', ok && rest)
  }

  /** `members` is what the membership query gave, if it succeeded. */
  function RoutedRoom(s: State, hasDb: bool, members: Option<seq<string>>, m: Message, allowPublish: bool,
                      faults: Faults)
    : (State, bool)
  {
    if !hasDb || m.payload.Raw? || m.payload.envelope.groupId == "" || members.None? then (s, false)
    else FannedOut(s, hasDb, members.value, m, allowPublish, faults)
  }

  function Routed(s: State, hasDb: bool, members: Option<seq<string>>, m: Message, allowPublish: bool, faults: Faults)
    : (State, bool)
  {
    if IsGroupRouted(m.kind) || IsChannelRouted(m.kind) then RoutedRoom(s, hasDb, members, m, allowPublish, faults)
    else RoutedDirect(s, hasDb, m, allowPublish, faults)
  }

  // ----- the hub -----

  /** Accounts present have sessions, all of their own and with a channel that is not over-full. */
  ghost predicate SessionsSound(s: State) {
    && (forall key :: key in s.clients ==>
          key != "" && s.clients[key] != {} && forall c :: c in s.clients[key] ==> c.pubKey == key && c in s.queues)
    && (forall c :: c in s.queues ==> |s.queues[c]| <= CHANNEL_SIZE)
  }

  class MessageHub {
    var clients: map<string, set<Client>>
    var queues: map<Client, seq<Payload>>
    var offline: Offline.Queue
    var history: History.Table
    const hasDb: bool

    constructor (hasDb: bool)
      ensures Valid() && Now() == IDLE && this.hasDb == hasDb
    {
      clients, queues, offline, history := map[], map[], Offline.EMPTY, History.EMPTY;
      this.hasDb := hasDb;
    }

    ghost function Now(): State
      reads this
    {
      State(clients, queues, offline, history)
    }

    ghost predicate Valid()
      reads this
    {
      SessionsSound(Now())
    }

    /** Tells whether this is the account's first session. */
    method AddClientSession(client: Client) returns (wasOffline: bool)
      requires Valid()
      modifies this
      ensures Valid() && Now() == SessionAdded(old(Now()), client)
      ensures wasOffline <==> client.pubKey != "" && client.pubKey !in old(clients)
    {
      if client.pubKey == "" {
        return false;
      }
      var sessions := {};
      if client.pubKey in clients {
        sessions := clients[client.pubKey];
      }
      wasOffline := sessions == {};
      clients := clients[client.pubKey := sessions + {client}];
      if client !in queues {
        queues := queues[client := []];
      }
    }

    /** Tells whether the account's last session is gone. */
    method RemoveClientSession(client: Client) returns (lastGone: bool)
      requires Valid()
      modifies this`clients
      ensures Valid() && Now() == SessionRemoved(old(Now()), client)
      ensures lastGone <==> client.pubKey != "" && client.pubKey in old(clients) && client.pubKey !in clients
    {
      if client.pubKey == "" || client.pubKey !in clients {
        return false;
      }
      var sessions := clients[client.pubKey] - {client};
      if sessions == {} {
        clients := clients - {client.pubKey};
        return true;
      }
      clients := clients[client.pubKey := sessions];
      return false;
    }

    method DeliverToPubKey(pubKey: string, payload: Payload) returns (delivered: bool)
      requires Valid()
      modifies this`clients, this`queues
      ensures Valid() && Now() == Delivered(old(Now()), pubKey, payload)
      ensures delivered <==> Listening(old(Now()), pubKey) != {}
    {
      hide SessionsSound;
      hide Delivered;
      hide DeliveredAmong;
      hide SessionRemoved;
      hide HasRoom;
      ghost var before := Now();
      AmongNone(before, pubKey, payload);
      DeliveryKeepsSound(before, pubKey, payload);
      delivered := false;
      if pubKey !in clients {
        NobodyHome(before, pubKey, payload);
        return;
      }
      SomebodyHome(before, pubKey);
      var targets, done := clients[pubKey], {};
      while targets != {}
        invariant SessionsOf(before, pubKey) == targets + done && targets !! done
        invariant Now() == DeliveredAmong(before, pubKey, payload, done)
        invariant delivered <==> done * Listening(before, pubKey) != {}
        decreases targets
      {
        var client :| client in targets;
        ListeningHasRoom(before, pubKey, client);
        AmongIsSound(before, pubKey, payload, done);
        AmongOneMore(before, pubKey, payload, done, client);
        targets, done := targets - {client}, done + {client};
        if |queues[client]| < CHANNEL_SIZE {
          queues := queues[client := queues[client] + [payload]];
          delivered := true;
          assert client in done * Listening(before, pubKey);
        } else {
          var _ := RemoveClientSession(client);
          assert done * Listening(before, pubKey) == (done - {client}) * Listening(before, pubKey);
        }
      }
      AmongAll(before, pubKey, payload);
    }

    method SaveDirectMessageHistory(m: Message, faults: Faults) returns (saved: bool)
      modifies this`history
      ensures match HistorySaved(old(Now()), m, faults)
              case None => !saved && Now() == old(Now())
              case Some(s) => saved && Now() == s
    {
      hide History.FilingOf;
      match History.FilingOf(m)
      case Skip => saved := true;
      case Refuse => saved := false;
      case File(row) =>
        if faults.history {
          return false;
        }
        history := History.Recorded(history, row);
        saved := true;
    }

    method UpdateDirectHistoryState(m: Message, state: string, faults: Faults)
      modifies this`history
      ensures Now() == HistoryRestated(old(Now()), m, state, faults)
    {
      if m.payload.Raw? || faults.state {
        return;
      }
      var e := m.payload.envelope;
      history := History.StateUpdated(history, FirstNonBlank(e.sender, m.sender),
                                      FirstNonBlank(e.recipient, m.recipient), e.msgId, state);
    }

    method SaveOfflineMessage(m: Message, faults: Faults) returns (saved: bool)
      modifies this`offline
      ensures match OfflineSaved(old(Now()), hasDb, m, faults)
              case None => !saved && Now() == old(Now())
              case Some(s) => saved && Now() == s
    {
      if !hasDb || m.recipient == "" {
        return true;
      }
      if m.recipient in faults.offline {
        return false;
      }
      offline := Offline.Saved(offline, m.sender, m.recipient, m.payload);
      saved := true;
    }

    /** Groups and channels: every member in turn; `members` is what the membership query gave. */
    method RouteRoomMessage(m: Message, members: Option<seq<string>>, allowPublish: bool, faults: Faults)
      returns (accepted: bool)
      requires Valid()
      modifies this
      ensures Valid() && (Now(), accepted) == RoutedRoom(old(Now()), hasDb, members, m, allowPublish, faults)
    {
      hide SessionsSound;
      hide Delivered;
      hide Listening;
      hide OfflineSaved;
      if !hasDb || m.payload.Raw? || m.payload.envelope.groupId == "" || members.None? {
        return false;
      }
      var all := members.value;
      accepted := true;
      for i := 0 to |all|
        invariant Valid()
        invariant var (s, rest) := FannedOut(Now(), hasDb, all[i..], m, allowPublish, faults);
                  (s, accepted && rest) == FannedOut(old(Now()), hasDb, all, m, allowPublish, faults)
      {
        assert all[i..][1..] == all[i + 1..];
        ghost var before := Now();
        if all[i] == "" {
          continue;
        }
        var delivered := DeliverToPubKey(all[i], m.payload);
        if delivered {
          continue;
        }
        if allowPublish && all[i] != m.sender && PersistsOffline(m.kind) {
          ghost var tried := Now();
          var saved := SaveOfflineMessage(m.(recipient := all[i]), faults);
          if saved {
            QueueingKeepsSound(tried, hasDb, m.(recipient := all[i]), faults);
          } else {
            accepted := false;
          }
        }
      }
    }

    method RouteToLocal(m: Message, members: Option<seq<string>>, allowPublish: bool, faults: Faults)
      returns (accepted: bool)
      requires Valid()
      modifies this
      ensures Valid() && (Now(), accepted) == Routed(old(Now()), hasDb, members, m, allowPublish, faults)
    {
      hide HistorySaved;
      hide HistoryRestated;
      hide OfflineSaved;
      hide Delivered;
      hide Listening;
      hide SessionsSound;
      hide RoutedRoom;
      if IsGroupRouted(m.kind) || IsChannelRouted(m.kind) {
        accepted := RouteRoomMessage(m, members, allowPublish, faults);
        return;
      }
      ghost var before := Now();
      var historyTracked := false;
      if allowPublish && hasDb && HasDirectHistory(m.kind) {
        var saved := SaveDirectMessageHistory(m, faults);
        if !saved {
          return false;
        }
        FilingKeepsSessions(before, m, faults);
        historyTracked := true;
      }
      var delivered := DeliverToPubKey(m.recipient, m.payload);
      ghost var tried := Now();
      if delivered {
        if historyTracked {
          UpdateDirectHistoryState(m, "delivered", faults);
          RestatingKeepsSessions(tried, m, "delivered", faults);
        }
        return true;
      }
      if allowPublish && MessagePersistsOffline(m) {
        var saved := SaveOfflineMessage(m, faults);
        if !saved {
          return false;
        }
        QueueingKeepsSound(tried, hasDb, m, faults);
        if historyTracked {
          ghost var queued := Now();
          UpdateDirectHistoryState(m, "waiting_delivery", faults);
          RestatingKeepsSessions(queued, m, "waiting_delivery", faults);
        }
        return true;
      }
      return !MessagePersistsOffline(m);
    }
  }

  lemma FilingKeepsSessions(s: State, m: Message, faults: Faults)
    requires SessionsSound(s) && HistorySaved(s, m, faults).Some?
    ensures SessionsSound(HistorySaved(s, m, faults).value)
  {
    hide History.FilingOf;
  }

  lemma RestatingKeepsSessions(s: State, m: Message, state: string, faults: Faults)
    requires SessionsSound(s)
    ensures SessionsSound(HistoryRestated(s, m, state, faults))
  {
    hide History.StateUpdated;
  }

  lemma QueueingKeepsSound(s: State, hasDb: bool, m: Message, faults: Faults)
    requires SessionsSound(s) && OfflineSaved(s, hasDb, m, faults).Some?
    ensures SessionsSound(OfflineSaved(s, hasDb, m, faults).value)
  {
    hide Offline.Saved;
  }

  // ----- delivery, session by session -----

  ghost function Left(s: State, pubKey: string, done: set<Client>): set<Client> {
    set c | c in SessionsOf(s, pubKey) && (c !in done || HasRoom(s, c))
  }

  /** The state once the sessions in `done` have been tried. */
  ghost function DeliveredAmong(s: State, pubKey: string, payload: Payload, done: set<Client>): State {
    WithSessions(s, pubKey, Left(s, pubKey, done))
      .(queues := map c | c in s.queues ::
          if c in done && c in Listening(s, pubKey) then s.queues[c] + [payload] else s.queues[c])
  }

  lemma AmongNone(s: State, pubKey: string, payload: Payload)
    requires SessionsSound(s)
    ensures DeliveredAmong(s, pubKey, payload, {}) == s
  {
    var s' := DeliveredAmong(s, pubKey, payload, {});
    assert Left(s, pubKey, {}) == SessionsOf(s, pubKey);
    assert s'.queues == s.queues;
    assert s'.clients == s.clients;
  }

  lemma SomebodyHome(s: State, pubKey: string)
    requires SessionsSound(s) && pubKey in s.clients
    ensures SessionsOf(s, pubKey) != {}
  {
  }

  lemma AmongAll(s: State, pubKey: string, payload: Payload)
    ensures SessionsOf(s, pubKey) != {} ==>
              DeliveredAmong(s, pubKey, payload, SessionsOf(s, pubKey)) == Delivered(s, pubKey, payload)
  {
    var all := SessionsOf(s, pubKey);
    assert Left(s, pubKey, all) == Listening(s, pubKey);
    assert DeliveredAmong(s, pubKey, payload, all).queues
        == map c | c in s.queues :: if c in Listening(s, pubKey) then s.queues[c] + [payload] else s.queues[c];
  }

  lemma NobodyHome(s: State, pubKey: string, payload: Payload)
    requires pubKey !in s.clients
    ensures Delivered(s, pubKey, payload) == s && Listening(s, pubKey) == {}
  {
  }

  lemma ListeningHasRoom(s: State, pubKey: string, c: Client)
    requires c in SessionsOf(s, pubKey)
    ensures c in Listening(s, pubKey) <==> HasRoom(s, c)
  {
  }

  /** One more session: its channel grows if it has room, and otherwise the session goes. */
  lemma AmongOneMore(s: State, pubKey: string, payload: Payload, done: set<Client>, c: Client)
    requires SessionsSound(s) && c in SessionsOf(s, pubKey) && c !in done
    ensures var t, t' := DeliveredAmong(s, pubKey, payload, done), DeliveredAmong(s, pubKey, payload, done + {c});
            && c in t.queues && t.queues[c] == s.queues[c]
            && (if HasRoom(s, c)
                then |t.queues[c]| < CHANNEL_SIZE && t' == t.(queues := t.queues[c := t.queues[c] + [payload]])
                else |t.queues[c]| >= CHANNEL_SIZE && t' == SessionRemoved(t, c))
  {
    if HasRoom(s, c) {
      OneMoreListens(s, pubKey, payload, done, c);
    } else {
      OneMoreGoes(s, pubKey, payload, done, c);
    }
  }

  lemma OneMoreListens(s: State, pubKey: string, payload: Payload, done: set<Client>, c: Client)
    requires SessionsSound(s) && c in SessionsOf(s, pubKey) && c !in done && HasRoom(s, c)
    ensures var t, t' := DeliveredAmong(s, pubKey, payload, done), DeliveredAmong(s, pubKey, payload, done + {c});
            && c in t.queues && t.queues[c] == s.queues[c]
            && t' == t.(queues := t.queues[c := t.queues[c] + [payload]])
  {
    var t, t' := DeliveredAmong(s, pubKey, payload, done), DeliveredAmong(s, pubKey, payload, done + {c});
    assert Left(s, pubKey, done + {c}) == Left(s, pubKey, done);
    assert t'.queues == t.queues[c := t.queues[c] + [payload]];
  }

  lemma OneMoreGoes(s: State, pubKey: string, payload: Payload, done: set<Client>, c: Client)
    requires SessionsSound(s) && c in SessionsOf(s, pubKey) && c !in done && !HasRoom(s, c)
    ensures var t, t' := DeliveredAmong(s, pubKey, payload, done), DeliveredAmong(s, pubKey, payload, done + {c});
            && c in t.queues && t.queues[c] == s.queues[c]
            && t' == SessionRemoved(t, c)
  {
    var t, t' := DeliveredAmong(s, pubKey, payload, done), DeliveredAmong(s, pubKey, payload, done + {c});
    var left := Left(s, pubKey, done);
    assert Left(s, pubKey, done + {c}) == left - {c} && c in left;
    assert t'.queues == t.queues;
    assert c.pubKey == pubKey && pubKey in t.clients && t.clients[pubKey] == left;
    assert SessionRemoved(t, c) == WithSessions(t, pubKey, left - {c});
    SessionsSetTwice(s, pubKey, left, left - {c}, t.queues);
  }

  lemma SessionsSetTwice(s: State, pubKey: string, a: set<Client>, b: set<Client>, queues: map<Client, seq<Payload>>)
    requires a != {}
    ensures WithSessions(WithSessions(s, pubKey, a).(queues := queues), pubKey, b)
         == WithSessions(s, pubKey, b).(queues := queues)
  {
    var s' := WithSessions(s, pubKey, a).(queues := queues);
    if b == {} {
      assert s'.clients - {pubKey} == s.clients - {pubKey};
    } else {
      assert s'.clients[pubKey := b] == s.clients[pubKey := b];
    }
  }

  lemma AmongIsSound(s: State, pubKey: string, payload: Payload, done: set<Client>)
    requires SessionsSound(s)
    ensures SessionsSound(DeliveredAmong(s, pubKey, payload, done))
  {
  }

  lemma DeliveryKeepsSound(s: State, pubKey: string, payload: Payload)
    requires SessionsSound(s)
    ensures SessionsSound(Delivered(s, pubKey, payload))
  {
  }

  // ----- who has which sessions -----

  /** A session that joins is added to its account's, with an empty channel unless it has one already. */
  lemma JoiningAdds(s: State, client: Client, pubKey: string)
    requires client.pubKey != ""
    ensures var s' := SessionAdded(s, client);
            && SessionsOf(s', pubKey) == SessionsOf(s, pubKey) + (if pubKey == client.pubKey then {client} else {})
            && client in s'.queues && (client !in s.queues ==> s'.queues[client] == [])
            && (forall c :: c in s.queues ==> c in s'.queues && s'.queues[c] == s.queues[c])
            && s'.offline == s.offline && s'.history == s.history
  {
  }

  /** A session listens as long as its channel holds fewer than 256 payloads. */
  lemma ListensExactlyWhen(s: State, pubKey: string, c: Client)
    requires SessionsSound(s)
    ensures c in Listening(s, pubKey) <==> c in SessionsOf(s, pubKey) && |s.queues[c]| < 256
  {
  }

  /** A session that leaves is taken from its account's, and nothing else changes. */
  lemma LeavingTakes(s: State, client: Client, pubKey: string)
    requires SessionsSound(s)
    ensures var s' := SessionRemoved(s, client);
            && SessionsOf(s', pubKey) == SessionsOf(s, pubKey) - (if pubKey == client.pubKey then {client} else {})
            && s'.queues == s.queues && s'.offline == s.offline && s'.history == s.history
            && (pubKey in s'.clients <==> SessionsOf(s', pubKey) != {})
  {
  }

}
