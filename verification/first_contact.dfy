/**
 First contact between two accounts: the X3DH handshake (clients/windows/src/crypto.rs:204-254),
 the first payload (clients/windows/src/ratchet.rs:181-215) and the receiver of direct payloads
 (clients/windows/src/net.rs:1558-1622).

 The stored tables of an account are maps; reading and writing them succeeds.
 */
module FirstContact {
  import opened Wrappers
  import opened Keys
  import opened Ratchet
  import RatchetPair

  // ----- the handshake -----

  datatype Handshake = Handshake(shared: Key, ephemeral: PublicKey, preKey: Option<PublicKey>)

  function X3dhInitiate(own: Secret, peer: PublicKey, preKey: Option<PublicKey>, ephemeral: Option<Secret>)
    : Result<Handshake, CryptoError>
  {
    if ephemeral.None? then Failure(RandomFailed) else
    var e := ephemeral.value;
    var dh1 := if preKey.Some? then NaclBoxBefore(preKey.value, own) else Success(Zero);
    if dh1.Failure? then Failure(dh1.error) else
    var dh3 := if preKey.Some? then NaclBoxBefore(preKey.value, e) else Success(Zero);
    if dh3.Failure? then Failure(dh3.error) else
    match NaclBoxBefore(peer, e)
    case Failure(error) => Failure(error)
    case Success(dh2) => Success(Handshake(X3dhRoot(dh1.value, dh2, dh3.value), Point(e), preKey))
  }

  function X3dhRespond(own: Secret, preKey: Option<Secret>, peer: PublicKey, ephemeral: PublicKey)
    : Result<Key, CryptoError>
  {
    var dh1 := if preKey.Some? then NaclBoxBefore(peer, preKey.value) else Success(Zero);
    if dh1.Failure? then Failure(dh1.error) else
    var dh3 := if preKey.Some? then NaclBoxBefore(ephemeral, preKey.value) else Success(Zero);
    if dh3.Failure? then Failure(dh3.error) else
    match NaclBoxBefore(ephemeral, own)
    case Failure(error) => Failure(error)
    case Success(dh2) => Success(X3dhRoot(dh1.value, dh2, dh3.value))
  }

  /** Both ends of a handshake derive one secret, with a prekey or without. */
  lemma HandshakeAgrees(a: Secret, b: Secret, preKey: Option<Secret>, e: Secret)
    ensures var pub := if preKey.Some? then Some(Point(preKey.value)) else None;
            var h := X3dhInitiate(a, Point(b), pub, Some(e));
            h.Success? && X3dhRespond(b, preKey, Point(a), h.value.ephemeral) == Success(h.value.shared)
  {
  }

  /** Responding with another prekey, or with none in place of one, derives another secret. */
  lemma HandshakeBindsPreKey(b: Secret, p: Option<Secret>, q: Option<Secret>, a: Secret, e: PublicKey, f: PublicKey)
    requires p != q
    requires X3dhRespond(b, p, Point(a), e).Success? && X3dhRespond(b, q, Point(a), f).Success?
    ensures X3dhRespond(b, p, Point(a), e).value != X3dhRespond(b, q, Point(a), f).value
  {
    if p.Some? && q.Some? {
      AgreementIsSymmetricAndInjective(a, p.value, a, q.value);
    }
  }

  // ----- the first payload -----

  datatype X3dhParams = X3dhParams(ephemeral: PublicKey, preKey: Option<PublicKey>)

  datatype Payload = Payload(header: Header, ciphertext: Ciphertext, x3dh: Option<X3dhParams>)

  /** A payload as it arrives. */
  datatype Data = NotJson | Parsed(payload: Payload)

  function EncryptInitial(h: Handshake, text: string, own: Secret, keypair: Option<Secret>, sealing: Sealing)
    : Result<(Payload, SessionState), Error>
  {
    var (s, r) := Encrypted(SenderState(h.shared, h.preKey, own), text, keypair, sealing);
    match r
    case Failure(e) => Failure(e)
    case Success(m) => Success((Payload(m.header, m.ciphertext, Some(X3dhParams(h.ephemeral, h.preKey))), s))
  }

  // ----- the receiver -----

  datatype Account = Account(
    identity: Secret,
    sessions: map<PublicKey, SessionState>,
    stored: map<PublicKey, SessionState>,
    preKeys: map<PublicKey, Secret>)

  /** The key pairs one call may generate: for an existing session, for a new responder, for its first step. */
  datatype KeyPairs = KeyPairs(existing: Option<Secret>, responder: Option<Secret>, first: Option<Secret>)

  datatype ReceiveError = BadJson | HandshakeFailed(crypto: CryptoError) | RatchetFailed(ratchet: Error)

  type Received = Result<Option<string>, ReceiveError>

  /** The message text, when there is one; errors of an existing session count as none. */
  function Flat(o: Opened): Option<string> {
    if o.Success? then o.value else None
  }

  function FromExisting(acc: Account, peer: PublicKey, m: Message, keypair: Option<Secret>): (Account, Option<string>) {
    if peer in acc.sessions then
      var (s, o) := Decrypted(acc.sessions[peer], m, keypair);
      (acc.(sessions := acc.sessions[peer := s],
            stored := if Flat(o).Some? then acc.stored[peer := s] else acc.stored), Flat(o))
    else if peer in acc.stored then
      var (s, o) := Decrypted(acc.stored[peer], m, keypair);
      (if Flat(o).Some? then acc.(sessions := acc.sessions[peer := s], stored := acc.stored[peer := s]) else acc,
       Flat(o))
    else (acc, None)
  }

  function FromHandshake(acc: Account, peer: PublicKey, m: Message, x3dh: X3dhParams, pairs: KeyPairs)
    : (Account, Received)
  {
    var preKey := if x3dh.preKey.Some? && x3dh.preKey.value in acc.preKeys
                  then Some(acc.preKeys[x3dh.preKey.value]) else None;
    match X3dhRespond(acc.identity, preKey, peer, x3dh.ephemeral)
    case Failure(e) => (acc, Failure(HandshakeFailed(e)))
    case Success(shared) =>
      if pairs.responder.None? then (acc, Failure(RatchetFailed(Crypto(RandomFailed)))) else
      var (s, o) := Decrypted(ResponderState(shared, m.header.ratchetKey, pairs.responder.value), m, pairs.first);
      match o
      case Failure(e) => (acc, Failure(RatchetFailed(e)))
      case Success(None) => (acc, Success(None))
      case Success(Some(text)) =>
        (acc.(stored := acc.stored[peer := s],
              preKeys := if x3dh.preKey.Some? then acc.preKeys - {x3dh.preKey.value} else acc.preKeys,
              sessions := acc.sessions[peer := s]),
         Success(Some(text)))
  }

  function Receive(acc: Account, peer: PublicKey, data: Data, pairs: KeyPairs): (Account, Received) {
    match data
    case NotJson => (acc, Failure(BadJson))
    case Parsed(payload) =>
      var m := Message(payload.header, payload.ciphertext);
      var (acc', text) := FromExisting(acc, peer, m, pairs.existing);
      if text.None? && payload.x3dh.Some? then FromHandshake(acc', peer, m, payload.x3dh.value, pairs)
      else (acc', Success(text))
  }

  predicate Yields(r: Received) {
    r.Success? && r.value.Some?
  }

  /** The receiver with the source's own state: the session cache and the stored tables. */
  class DirectReceiver {
    var identity: Secret
    var sessions: map<PublicKey, SessionState>
    var stored: map<PublicKey, SessionState>
    var preKeys: map<PublicKey, Secret>

    ghost function State(): Account
      reads this
    {
      Account(identity, sessions, stored, preKeys)
    }

    method DecryptDirectPayload(peer: PublicKey, data: Data, pairs: KeyPairs) returns (r: Received)
      modifies this
      ensures (State(), r) == Receive(old(State()), peer, data, pairs)
    {
      if data.NotJson? {
        return Failure(BadJson);
      }
      var payload := data.payload;
      var m := Message(payload.header, payload.ciphertext);
      var text: Option<string> := None;
      if peer in sessions {
        var (s, o) := Decrypted(sessions[peer], m, pairs.existing);
        sessions := sessions[peer := s];
        text := Flat(o);
        if text.Some? {
          stored := stored[peer := s];
        }
      } else if peer in stored {
        var (s, o) := Decrypted(stored[peer], m, pairs.existing);
        text := Flat(o);
        if text.Some? {
          stored := stored[peer := s];
          sessions := sessions[peer := s];
        }
      }

      if text.None? && payload.x3dh.Some? {
        var x3dh := payload.x3dh.value;
        var preKey := None;
        if x3dh.preKey.Some? && x3dh.preKey.value in preKeys {
          preKey := Some(preKeys[x3dh.preKey.value]);
        }
        var shared := X3dhRespond(identity, preKey, peer, x3dh.ephemeral);
        if shared.Failure? {
          return Failure(HandshakeFailed(shared.error));
        }
        if pairs.responder.None? {
          return Failure(RatchetFailed(Crypto(RandomFailed)));
        }
        var responder := ResponderState(shared.value, payload.header.ratchetKey, pairs.responder.value);
        var (s, o) := Decrypted(responder, m, pairs.first);
        if o.Failure? {
          return Failure(RatchetFailed(o.error));
        }
        text := o.value;
        if text.Some? {
          stored := stored[peer := s];
          if x3dh.preKey.Some? {
            preKeys := preKeys - {x3dh.preKey.value};
          }
          sessions := sessions[peer := s];
        }
      }
      r := Success(text);
    }
  }

  // ----- a first message -----

  /** A first message from account a to account b, sealed by a's new sender session. */
  datatype First = First(a: Secret, b: Secret, preKey: Option<Secret>, ephemeral: Secret, own: Secret, text: string)

  function PublicPreKey(f: First): Option<PublicKey> {
    if f.preKey.Some? then Some(Point(f.preKey.value)) else None
  }

  function SharedOf(f: First): Key {
    X3dhInitiate(f.a, Point(f.b), PublicPreKey(f), Some(f.ephemeral)).value.shared
  }

  function Sent(f: First): (Payload, SessionState) {
    EncryptInitial(X3dhInitiate(f.a, Point(f.b), PublicPreKey(f), Some(f.ephemeral)).value,
                   f.text, f.own, None, SealOk).value
  }

  /** A session that cannot hold the first message key of a handshake. */
  ghost predicate NeverOpens(s: SessionState, shared: Key) {
    && s.recv != Some(shared)
    && (forall id :: id in s.skipped ==> s.skipped[id] != MessageKey(shared))
  }

  lemma SkippingNeverOpens(s: SessionState, until: nat, shared: Key)
    requires NeverOpens(s, shared) && shared.X3dhRoot? && SkippedTo(s, until).Success?
    ensures NeverOpens(SkippedTo(s, until).value, shared)
  {
    if s.recvIndex <= until {
      var t := SkippedTo(s, until).value;
      forall id | id in t.skipped
        ensures t.skipped[id] != MessageKey(shared)
      {
        StoreSkippedAt(s.skipped, s.recvRatchet.value, s.recv.value, s.recvIndex, until, id);
      }
    }
  }

  /** Such a session stays such a session whatever it decrypts, and never opens that key. */
  lemma DecryptNeverOpens(s: SessionState, m: Message, keypair: Option<Secret>, shared: Key)
    requires NeverOpens(s, shared) && shared.X3dhRoot?
    ensures NeverOpens(Decrypted(s, m, keypair).0, shared)
    ensures YieldsPlaintext(Decrypted(s, m, keypair).1) ==>
              m.ciphertext.Sealed? && m.ciphertext.key != MessageKey(shared)
  {
    var id := SkippedId(m.header.ratchetKey, m.header.n);
    if id !in s.skipped && Prepared(s, m.header, keypair).Success? {
      if s.recvRatchet != Some(m.header.ratchetKey) {
        if s.recv.Some? {
          SkippingNeverOpens(s, m.header.pn, shared);
        }
        SkippingNeverOpens(Ratcheted(s, m.header, keypair).value, m.header.n, shared);
      } else {
        SkippingNeverOpens(s, m.header.n, shared);
      }
    }
  }

  /** Sending does not touch what a session can open. */
  lemma EncryptNeverOpens(s: SessionState, text: string, keypair: Option<Secret>, sealing: Sealing, shared: Key)
    requires NeverOpens(s, shared)
    ensures NeverOpens(Encrypted(s, text, keypair, sealing).0, shared)
  {
  }

  // ----- accounts over time -----

  ghost predicate TableSound(acc: Account) {
    forall key :: key in acc.preKeys ==> key == Point(acc.preKeys[key])
  }

  /** No session with the peer, cached or stored, can hold this handshake's first message key. */
  ghost predicate Strange(acc: Account, peer: PublicKey, shared: Key) {
    && (peer in acc.sessions ==> NeverOpens(acc.sessions[peer], shared))
    && (peer in acc.stored ==> NeverOpens(acc.stored[peer], shared))
  }

  /** The first message of a handshake has been read, and its prekey is gone. */
  ghost predicate Consumed(acc: Account, f: First) {
    && acc.identity == f.b
    && TableSound(acc)
    && f.preKey.Some?
    && Point(f.preKey.value) !in acc.preKeys
    && Strange(acc, Point(f.a), SharedOf(f))
  }

  /** The new account is the old one with the session cached and stored and the prekey deleted. */
  ghost predicate Arrived(acc: Account, acc': Account, f: First, responder: Secret) {
    var peer := Point(f.a);
    && peer in acc'.stored
    && acc' == acc.(sessions := acc.sessions[peer := acc'.stored[peer]],
                    stored := acc.stored[peer := acc'.stored[peer]],
                    preKeys := if f.preKey.Some? then acc.preKeys - {Point(f.preKey.value)} else acc.preKeys)
    && SessionsArePaired(f, responder, acc'.stored[peer])
  }

  /** Both sessions are those of the two-party run that posts this message and then reads it. */
  ghost predicate SessionsArePaired(f: First, responder: Secret, session: SessionState) {
    var start := RatchetPair.Begin(RatchetPair.Setup(SharedOf(f), PublicPreKey(f), f.own, responder));
    var net := RatchetPair.Run(start, [RatchetPair.Post(RatchetPair.Initiator, f.text, None, SealOk),
                                       RatchetPair.Deliver(0, None)]);
    net.initiator == Sent(f).1 && net.responder == session
  }

  /** The responder's session once it has read the first message. */
  function Reader(f: First, responder: Secret): SessionState {
    ResponderState(SharedOf(f), Point(f.own), responder).(recv := Some(NextChain(SharedOf(f))), recvIndex := 1)
  }

  lemma ReaderIsPaired(f: First, responder: Secret)
    ensures SessionsArePaired(f, responder, Reader(f, responder))
  {
    hide RatchetPair.Run;
    AsTwoPartyRun(f, responder);
    ResponderReads(f, responder, None);
  }

  /** The handshake branch reads a first message whose prekey, if any, is there. */
  lemma HandshakeReads(acc: Account, f: First, pairs: KeyPairs)
    requires acc.identity == f.b && TableSound(acc) && pairs.responder.Some?
    requires f.preKey.Some? ==> Point(f.preKey.value) in acc.preKeys
    ensures var payload, peer, s := Sent(f).0, Point(f.a), Reader(f, pairs.responder.value);
            && payload.x3dh.Some?
            && FromHandshake(acc, peer, Message(payload.header, payload.ciphertext), payload.x3dh.value, pairs)
               == (acc.(stored := acc.stored[peer := s],
                        preKeys := if f.preKey.Some? then acc.preKeys - {Point(f.preKey.value)} else acc.preKeys,
                        sessions := acc.sessions[peer := s]),
                   Success(Some(f.text)))
  {
    HandshakeAgrees(f.a, f.b, f.preKey, f.ephemeral);
    ResponderReads(f, pairs.responder.value, pairs.first);
  }

  /** A first message is read by an account to which the handshake's first key is strange. */
  lemma ReadWhenStrange(acc: Account, f: First, pairs: KeyPairs)
    requires acc.identity == f.b && TableSound(acc) && Strange(acc, Point(f.a), SharedOf(f))
    requires f.preKey.Some? ==> Point(f.preKey.value) in acc.preKeys
    requires pairs.responder.Some?
    ensures var (acc', r) := Receive(acc, Point(f.a), Parsed(Sent(f).0), pairs);
            r == Success(Some(f.text)) && Arrived(acc, acc', f, pairs.responder.value)
    ensures f.preKey.Some? ==> Consumed(Receive(acc, Point(f.a), Parsed(Sent(f).0), pairs).0, f)
  {
    hide Sent;
    hide SharedOf;
    hide FromExisting;
    hide FromHandshake;
    hide Reader;
    hide NeverOpens;
    hide SessionsArePaired;
    var peer, payload := Point(f.a), Sent(f).0;
    var s := Reader(f, pairs.responder.value);
    var acc1 := FromExisting(acc, peer, Message(payload.header, payload.ciphertext), pairs.existing).0;
    ExistingFindsNothing(acc, f, pairs.existing);
    HandshakeReads(acc1, f, pairs);
    ReaderIsPaired(f, pairs.responder.value);
    ReaderIsSpent(f, pairs.responder.value);
    assert acc1.sessions[peer := s] == (acc1.sessions - {peer})[peer := s];
    assert acc.sessions[peer := s] == (acc.sessions - {peer})[peer := s];
  }

  /** A session that cannot hold the first message key leaves everything but itself alone. */
  lemma ExistingFindsNothing(acc: Account, f: First, keypair: Option<Secret>)
    requires Strange(acc, Point(f.a), SharedOf(f))
    ensures var m := Message(Sent(f).0.header, Sent(f).0.ciphertext);
            var (acc', text) := FromExisting(acc, Point(f.a), m, keypair);
            && text == None
            && acc' == acc.(sessions := acc'.sessions)
            && acc'.sessions - {Point(f.a)} == acc.sessions - {Point(f.a)}
  {
    var peer, m := Point(f.a), Message(Sent(f).0.header, Sent(f).0.ciphertext);
    if peer in acc.sessions {
      DecryptNeverOpens(acc.sessions[peer], m, keypair, SharedOf(f));
    } else if peer in acc.stored {
      DecryptNeverOpens(acc.stored[peer], m, keypair, SharedOf(f));
    }
  }

  lemma ResponderReads(f: First, b0: Secret, keypair: Option<Secret>)
    ensures var m := Message(Sent(f).0.header, Sent(f).0.ciphertext);
            var responder := ResponderState(SharedOf(f), m.header.ratchetKey, b0);
            Decrypted(responder, m, keypair) ==
              (responder.(recv := Some(NextChain(SharedOf(f))), recvIndex := 1), Success(Some(f.text)))
  {
  }

  lemma AsTwoPartyRun(f: First, b0: Secret)
    ensures var m := Message(Sent(f).0.header, Sent(f).0.ciphertext);
            var start := RatchetPair.Begin(RatchetPair.Setup(SharedOf(f), PublicPreKey(f), f.own, b0));
            var events := [RatchetPair.Post(RatchetPair.Initiator, f.text, None, SealOk), RatchetPair.Deliver(0, None)];
            && RatchetPair.Run(start, events).initiator == Sent(f).1
            && RatchetPair.Run(start, events).responder ==
                 Decrypted(ResponderState(SharedOf(f), m.header.ratchetKey, b0), m, None).0
  {
    var start := RatchetPair.Begin(RatchetPair.Setup(SharedOf(f), PublicPreKey(f), f.own, b0));
    var post := RatchetPair.Post(RatchetPair.Initiator, f.text, None, SealOk);
    var deliver := RatchetPair.Deliver(0, None);
    assert [post, deliver][1..] == [deliver];
    assert RatchetPair.Run(start, [post, deliver]) ==
           RatchetPair.Run(RatchetPair.Apply(RatchetPair.Apply(start, post), deliver), [deliver][1..]);
  }

  datatype Activity =
    | Incoming(peer: PublicKey, data: Data, pairs: KeyPairs)
    | Outgoing(peer: PublicKey, text: string, keypair: Option<Secret>, sealing: Sealing)
    | Initiating(peer: PublicKey, shared: Key, preKey: Option<PublicKey>, own: Secret)
    | NewPreKeys(secrets: set<Secret>)
    | ResetSession(peer: PublicKey)
    | Restart

  function Table(secrets: set<Secret>): (t: map<PublicKey, Secret>)
    ensures forall key :: key in t <==> key.Point? && key.secret in secrets
    ensures forall key :: key in t ==> key == Point(t[key])
  {
    map x | x in secrets :: Point(x) := x
  }

  /**
   What an account does between two calls: receive anything from anyone, send from a stored session,
   start a session of its own, add prekeys, drop a session, or lose the cache on a restart.
   */
  function Does(acc: Account, activity: Activity): Account {
    match activity
    case Incoming(peer, data, pairs) => Receive(acc, peer, data, pairs).0
    case Outgoing(peer, text, keypair, sealing) =>
      if peer !in acc.stored then acc else
      var (s, r) := Encrypted(acc.stored[peer], text, keypair, sealing);
      if r.Success? then acc.(stored := acc.stored[peer := s]) else acc
    case Initiating(peer, shared, preKey, own) =>
      acc.(stored := acc.stored[peer := SenderState(shared, preKey, own)])
    case NewPreKeys(secrets) => acc.(preKeys := acc.preKeys + Table(secrets))
    case ResetSession(peer) => acc.(sessions := acc.sessions - {peer}, stored := acc.stored - {peer})
    case Restart => acc.(sessions := map[])
  }

  function DoesAll(acc: Account, activities: seq<Activity>): Account
    decreases |activities|
  {
    if activities == [] then acc else DoesAll(Does(acc, activities[0]), activities[1..])
  }

  /** Prekeys are generated, so a used one does not come back. */
  predicate NotRegenerated(preKey: Secret, activities: seq<Activity>) {
    forall i :: 0 <= i < |activities| && activities[i].NewPreKeys? ==> preKey !in activities[i].secrets
  }

  lemma ReceivingKeepsConsumed(acc: Account, f: First, peer: PublicKey, data: Data, pairs: KeyPairs)
    requires Consumed(acc, f)
    ensures Consumed(Receive(acc, peer, data, pairs).0, f)
  {
    if data.Parsed? {
      var payload := data.payload;
      var m := Message(payload.header, payload.ciphertext);
      var (acc1, text) := FromExisting(acc, peer, m, pairs.existing);
      assert Consumed(acc1, f) by {
        ExistingKeepsConsumed(acc, f, peer, m, pairs.existing);
      }
      if text.None? && payload.x3dh.Some? {
        HandshakeKeepsConsumed(acc1, f, peer, m, payload.x3dh.value, pairs);
      }
    }
  }

  lemma ExistingKeepsConsumed(acc: Account, f: First, peer: PublicKey, m: Message, keypair: Option<Secret>)
    requires Consumed(acc, f)
    ensures Consumed(FromExisting(acc, peer, m, keypair).0, f)
  {
    if peer == Point(f.a) {
      if peer in acc.sessions {
        DecryptNeverOpens(acc.sessions[peer], m, keypair, SharedOf(f));
      } else if peer in acc.stored {
        DecryptNeverOpens(acc.stored[peer], m, keypair, SharedOf(f));
      }
    }
  }

  /** Any handshake the account can still answer as a's peer derives a secret other than the consumed one. */
  lemma OtherSecret(acc: Account, f: First, x3dh: X3dhParams)
    requires Consumed(acc, f)
    ensures var preKey := if x3dh.preKey.Some? && x3dh.preKey.value in acc.preKeys
                          then Some(acc.preKeys[x3dh.preKey.value]) else None;
            var shared := X3dhRespond(acc.identity, preKey, Point(f.a), x3dh.ephemeral);
            shared.Success? ==> shared.value != SharedOf(f)
  {
    HandshakeAgrees(f.a, f.b, f.preKey, f.ephemeral);
    var preKey := if x3dh.preKey.Some? && x3dh.preKey.value in acc.preKeys
                  then Some(acc.preKeys[x3dh.preKey.value]) else None;
    if X3dhRespond(acc.identity, preKey, Point(f.a), x3dh.ephemeral).Success? {
      HandshakeBindsPreKey(f.b, f.preKey, preKey, f.a, Point(f.ephemeral), x3dh.ephemeral);
    }
  }

  lemma HandshakeKeepsConsumed(acc: Account, f: First, peer: PublicKey, m: Message, x3dh: X3dhParams, pairs: KeyPairs)
    requires Consumed(acc, f)
    ensures Consumed(FromHandshake(acc, peer, m, x3dh, pairs).0, f)
  {
    var preKey := if x3dh.preKey.Some? && x3dh.preKey.value in acc.preKeys
                  then Some(acc.preKeys[x3dh.preKey.value]) else None;
    var shared := X3dhRespond(acc.identity, preKey, peer, x3dh.ephemeral);
    if peer == Point(f.a) && shared.Success? && pairs.responder.Some? {
      OtherSecret(acc, f, x3dh);
      var responder := ResponderState(shared.value, m.header.ratchetKey, pairs.responder.value);
      DecryptNeverOpens(responder, m, pairs.first, SharedOf(f));
    }
  }

  lemma DoingKeepsConsumed(acc: Account, f: First, activity: Activity)
    requires Consumed(acc, f)
    requires activity.NewPreKeys? ==> f.preKey.value !in activity.secrets
    ensures Consumed(Does(acc, activity), f)
  {
    match activity
    case Incoming(peer, data, pairs) => ReceivingKeepsConsumed(acc, f, peer, data, pairs);
    case Outgoing(peer, text, keypair, sealing) =>
      if peer in acc.stored && peer == Point(f.a) {
        EncryptNeverOpens(acc.stored[peer], text, keypair, sealing, SharedOf(f));
      }
    case _ =>
  }

  lemma {:induction false} ConsumedStays(acc: Account, f: First, activities: seq<Activity>)
    requires Consumed(acc, f) && NotRegenerated(f.preKey.value, activities)
    ensures Consumed(DoesAll(acc, activities), f)
    decreases |activities|
  {
    if activities != [] {
      DoingKeepsConsumed(acc, f, activities[0]);
      ConsumedStays(Does(acc, activities[0]), f, activities[1..]);
    }
  }

  lemma FreshResponderCannotRead(f: First, shared: Key, b0: Secret, keypair: Option<Secret>)
    requires shared != SharedOf(f)
    ensures var m := Message(Sent(f).0.header, Sent(f).0.ciphertext);
            !YieldsPlaintext(Decrypted(ResponderState(shared, m.header.ratchetKey, b0), m, keypair).1)
  {
  }

  lemma ReadOnceWhenStrange(acc: Account, f: First, pairs: KeyPairs, activities: seq<Activity>, again: KeyPairs)
    requires acc.identity == f.b && TableSound(acc) && Strange(acc, Point(f.a), SharedOf(f))
    requires f.preKey.Some? && Point(f.preKey.value) in acc.preKeys && pairs.responder.Some?
    requires NotRegenerated(f.preKey.value, activities)
    ensures var read := Receive(acc, Point(f.a), Parsed(Sent(f).0), pairs).0;
            !Yields(Receive(DoesAll(read, activities), Point(f.a), Parsed(Sent(f).0), again).1)
  {
    ReadWhenStrange(acc, f, pairs);
    var later := DoesAll(Receive(acc, Point(f.a), Parsed(Sent(f).0), pairs).0, activities);
    ConsumedStays(Receive(acc, Point(f.a), Parsed(Sent(f).0), pairs).0, f, activities);
    var peer, payload := Point(f.a), Sent(f).0;
    var m := Message(payload.header, payload.ciphertext);
    if peer in later.sessions {
      DecryptNeverOpens(later.sessions[peer], m, again.existing, SharedOf(f));
    } else if peer in later.stored {
      DecryptNeverOpens(later.stored[peer], m, again.existing, SharedOf(f));
    }
    var acc1 := FromExisting(later, peer, m, again.existing).0;
    ExistingKeepsConsumed(later, f, peer, m, again.existing);
    OtherSecret(acc1, f, payload.x3dh.value);
    var shared := X3dhRespond(acc1.identity, None, peer, payload.x3dh.value.ephemeral);
    if again.responder.Some? && shared.Success? {
      FreshResponderCannotRead(f, shared.value, again.responder.value, again.first);
    }
  }

  /** The reader has used the first message key and does not open that message again. */
  lemma ReaderIsSpent(f: First, responder: Secret)
    ensures NeverOpens(Reader(f, responder), SharedOf(f))
  {
  }

  lemma SecondYieldsWhenStrange(acc: Account, f: First, pairs: KeyPairs, again: KeyPairs)
    requires acc.identity == f.b && TableSound(acc) && Strange(acc, Point(f.a), SharedOf(f))
    requires f.preKey.Some? ==> Point(f.preKey.value) in acc.preKeys
    requires pairs.responder.Some? && again.responder.Some?
    ensures var read := Receive(acc, Point(f.a), Parsed(Sent(f).0), pairs).0;
            Yields(Receive(read, Point(f.a), Parsed(Sent(f).0), again).1) <==> f.preKey.None?
  {
    if f.preKey.Some? {
      ReadOnceWhenStrange(acc, f, pairs, [], again);
    } else {
      ReadWhenStrange(acc, f, pairs);
      var read := Receive(acc, Point(f.a), Parsed(Sent(f).0), pairs).0;
      ReaderIsSpent(f, pairs.responder.value);
      ReaderIsPaired(f, pairs.responder.value);
      assert Strange(read, Point(f.a), SharedOf(f));
      ReadWhenStrange(read, f, again);
    }
  }

  // ----- accounts reached from a new one -----

  /** An account before anything has happened to it. */
  function NewAccount(identity: Secret): Account {
    Account(identity, map[], map[], map[])
  }

  /** A payload from the sender that names this handshake's ephemeral key. */
  predicate Names(f: First, activity: Activity) {
    && activity.Incoming?
    && activity.peer == Point(f.a)
    && activity.data.Parsed?
    && activity.data.payload.x3dh.Some?
    && activity.data.payload.x3dh.value.ephemeral == Point(f.ephemeral)
  }

  /** No such payload has yielded a text yet; it may have arrived and failed any number of times. */
  predicate Unanswered(acc: Account, f: First, activities: seq<Activity>)
    decreases |activities|
  {
    activities == [] ||
    (!(Names(f, activities[0]) && Yields(Receive(acc, activities[0].peer, activities[0].data, activities[0].pairs).1))
     && Unanswered(Does(acc, activities[0]), f, activities[1..]))
  }

  /** A handshake under another ephemeral key derives another secret. */
  lemma HandshakeBindsEphemeral(f: First, preKey: Option<Secret>, ephemeral: PublicKey)
    requires ephemeral != Point(f.ephemeral)
    ensures var shared := X3dhRespond(f.b, preKey, Point(f.a), ephemeral);
            shared.Success? ==> shared.value != SharedOf(f)
  {
    if ephemeral.Point? {
      AgreementIsSymmetricAndInjective(ephemeral.secret, f.b, f.b, f.ephemeral);
    }
  }

  ghost predicate Untouched(acc: Account, f: First) {
    acc.identity == f.b && TableSound(acc) && Strange(acc, Point(f.a), SharedOf(f))
  }

  lemma ExistingKeepsUntouched(acc: Account, f: First, peer: PublicKey, m: Message, keypair: Option<Secret>)
    requires Untouched(acc, f)
    ensures Untouched(FromExisting(acc, peer, m, keypair).0, f)
  {
    if peer == Point(f.a) {
      if peer in acc.sessions {
        DecryptNeverOpens(acc.sessions[peer], m, keypair, SharedOf(f));
      } else if peer in acc.stored {
        DecryptNeverOpens(acc.stored[peer], m, keypair, SharedOf(f));
      }
    }
  }

  lemma HandshakeKeepsUntouched(acc: Account, f: First, peer: PublicKey, m: Message, x3dh: X3dhParams, pairs: KeyPairs)
    requires Untouched(acc, f)
    requires peer == Point(f.a) && x3dh.ephemeral == Point(f.ephemeral) ==>
               !Yields(FromHandshake(acc, peer, m, x3dh, pairs).1)
    ensures Untouched(FromHandshake(acc, peer, m, x3dh, pairs).0, f)
  {
    var preKey := if x3dh.preKey.Some? && x3dh.preKey.value in acc.preKeys
                  then Some(acc.preKeys[x3dh.preKey.value]) else None;
    var shared := X3dhRespond(acc.identity, preKey, peer, x3dh.ephemeral);
    if peer == Point(f.a) && shared.Success? && pairs.responder.Some? && x3dh.ephemeral != Point(f.ephemeral) {
      HandshakeBindsEphemeral(f, preKey, x3dh.ephemeral);
      var responder := ResponderState(shared.value, m.header.ratchetKey, pairs.responder.value);
      DecryptNeverOpens(responder, m, pairs.first, SharedOf(f));
    }
  }

  lemma ReceivingKeepsUntouched(acc: Account, f: First, peer: PublicKey, data: Data, pairs: KeyPairs)
    requires Untouched(acc, f)
    requires Names(f, Incoming(peer, data, pairs)) ==> !Yields(Receive(acc, peer, data, pairs).1)
    ensures Untouched(Receive(acc, peer, data, pairs).0, f)
  {
    hide Untouched;
    hide FromHandshake;
    hide FromExisting;
    if data.Parsed? {
      var payload := data.payload;
      var m := Message(payload.header, payload.ciphertext);
      var (acc1, text) := FromExisting(acc, peer, m, pairs.existing);
      ExistingKeepsUntouched(acc, f, peer, m, pairs.existing);
      if text.None? && payload.x3dh.Some? {
        HandshakeKeepsUntouched(acc1, f, peer, m, payload.x3dh.value, pairs);
      }
    }
  }

  lemma DoingKeepsUntouched(acc: Account, f: First, activity: Activity)
    requires Untouched(acc, f)
    requires Names(f, activity) ==> !Yields(Receive(acc, activity.peer, activity.data, activity.pairs).1)
    ensures Untouched(Does(acc, activity), f)
  {
    match activity
    case Incoming(peer, data, pairs) => ReceivingKeepsUntouched(acc, f, peer, data, pairs);
    case Outgoing(peer, text, keypair, sealing) =>
      if peer in acc.stored && peer == Point(f.a) {
        EncryptNeverOpens(acc.stored[peer], text, keypair, sealing, SharedOf(f));
      }
    case _ =>
  }

  /** Whatever an account has done before, a handshake it has not answered is strange to it. */
  lemma {:induction false} UntouchedStays(acc: Account, f: First, activities: seq<Activity>)
    requires Untouched(acc, f) && Unanswered(acc, f, activities)
    ensures Untouched(DoesAll(acc, activities), f)
    decreases |activities|
  {
    hide Untouched;
    hide Does;
    hide Names;
    hide Receive;
    if activities != [] {
      DoingKeepsUntouched(acc, f, activities[0]);
      UntouchedStays(Does(acc, activities[0]), f, activities[1..]);
    }
  }

  /** An account with any past in which this handshake is unanswered, and which has the prekey it names, if any. */
  ghost predicate Awaits(f: First, past: seq<Activity>) {
    && Unanswered(NewAccount(f.b), f, past)
    && (f.preKey.Some? ==> Point(f.preKey.value) in DoesAll(NewAccount(f.b), past).preKeys)
  }

  /** An account that has just made the prekey awaits every message that names it, and any that names none. */
  lemma NewAccountAwaits(f: First)
    ensures Awaits(f, [NewPreKeys(if f.preKey.Some? then {f.preKey.value} else {})])
  {
    var past := [NewPreKeys(if f.preKey.Some? then {f.preKey.value} else {})];
    assert past[1..] == [];
    assert DoesAll(NewAccount(f.b), past) == DoesAll(Does(NewAccount(f.b), past[0]), []);
  }

  /** Dropping a session leaves none with the peer, cached or stored, and touches nothing else. */
  lemma ResettingForgets(acc: Account, peer: PublicKey)
    ensures var acc' := Does(acc, ResetSession(peer));
            && peer !in acc'.sessions && peer !in acc'.stored && acc'.preKeys == acc.preKeys
            && (forall p :: p != peer ==> (p in acc.sessions <==> p in acc'.sessions))
            && (forall p :: p != peer ==> (p in acc.stored <==> p in acc'.stored))
            && (forall p :: p in acc'.sessions ==> acc'.sessions[p] == acc.sessions[p])
            && (forall p :: p in acc'.stored ==> acc'.stored[p] == acc.stored[p])
  {
  }

  lemma AwaitingIsUntouched(f: First, past: seq<Activity>)
    requires Awaits(f, past)
    ensures Untouched(DoesAll(NewAccount(f.b), past), f)
  {
    hide Unanswered;
    hide DoesAll;
    UntouchedStays(NewAccount(f.b), f, past);
  }

  /**
   A first message reaches an account with any past that still has the prekey it names (or names none): its
   text comes back, the new session is cached and stored, the prekey is deleted, nothing else of the account
   changes, and the two sessions are those of the two-party run that posts this message and reads it.
   */
  lemma FirstMessageArrives(f: First, past: seq<Activity>, pairs: KeyPairs)
    requires Awaits(f, past) && pairs.responder.Some?
    ensures var acc := DoesAll(NewAccount(f.b), past);
            var (acc', r) := Receive(acc, Point(f.a), Parsed(Sent(f).0), pairs);
            r == Success(Some(f.text)) && Arrived(acc, acc', f, pairs.responder.value)
  {
    hide Unanswered;
    hide DoesAll;
    hide Arrived;
    hide Receive;
    AwaitingIsUntouched(f, past);
    ReadWhenStrange(DoesAll(NewAccount(f.b), past), f, pairs);
  }

  /**
   Once a first message made with a prekey has been read, no later activity of the account, however long,
   makes the same payload yield a plaintext again.
   */
  lemma FirstMessageReadOnce(f: First, past: seq<Activity>, pairs: KeyPairs, later: seq<Activity>, again: KeyPairs)
    requires Awaits(f, past) && pairs.responder.Some?
    requires f.preKey.Some? && NotRegenerated(f.preKey.value, later)
    ensures var read := Receive(DoesAll(NewAccount(f.b), past), Point(f.a), Parsed(Sent(f).0), pairs).0;
            !Yields(Receive(DoesAll(read, later), Point(f.a), Parsed(Sent(f).0), again).1)
  {
    hide Unanswered;
    hide DoesAll;
    hide Receive;
    AwaitingIsUntouched(f, past);
    ReadOnceWhenStrange(DoesAll(NewAccount(f.b), past), f, pairs, later, again);
  }

  /**
   Delivering the same first payload a second time yields its plaintext again exactly when it was made without
   a prekey: then the handshake can still be answered and replaces the session.
   */
  lemma SecondDeliveryYieldsWithoutPreKey(f: First, past: seq<Activity>, pairs: KeyPairs, again: KeyPairs)
    requires Awaits(f, past) && pairs.responder.Some? && again.responder.Some?
    ensures var read := Receive(DoesAll(NewAccount(f.b), past), Point(f.a), Parsed(Sent(f).0), pairs).0;
            Yields(Receive(read, Point(f.a), Parsed(Sent(f).0), again).1) <==> f.preKey.None?
  {
    hide Unanswered;
    hide DoesAll;
    hide Receive;
    AwaitingIsUntouched(f, past);
    SecondYieldsWhenStrange(DoesAll(NewAccount(f.b), past), f, pairs, again);
  }
}
