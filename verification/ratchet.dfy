/**
 The double ratchet session (clients/windows/src/ratchet.rs).

 `SessionState` is the value of a session; the functions on it specify the four operations that
 change one.  The class `Session` has the fields of the source's struct and runs its statements;
 each method is proved to have the effect of the corresponding function.

 What the operating system supplies is a parameter: `keypair` is the outcome of
 `generate_box_keypair`, `sealing` is whether padding and the random nonce succeeded.
 */
module Ratchet {
  import opened Wrappers
  import opened Keys

  const MAX_SKIP: nat := 50

  datatype Header = Header(ratchetKey: PublicKey, n: nat, pn: nat)

  /** What a secretbox holds once it is opened. */
  datatype Body =
    | NotUtf8
    | Plain(text: string)
    | BadHeader
    | Envelope(header: Header, text: string)

  datatype Ciphertext = NotBase64 | TooShort | Sealed(key: Key, body: Body)

  datatype Message = Message(header: Header, ciphertext: Ciphertext)

  datatype Error =
    | Crypto(error: CryptoError)
    | InvalidBase64
    | Json
    | PayloadTooShort
    | MissingSendChain
    | MissingReceiveChain
    | MissingPeerRatchetKey
    | NonceFailed
    | TooManySkippedMessages
    | Utf8
    | MetadataPaddingFailed

  datatype Sealing = SealOk | SealPaddingFailed | SealNonceFailed

  datatype SkippedId = SkippedId(ratchetKey: PublicKey, n: nat)

  datatype SessionState = SessionState(
    root: Key,
    send: Option<Key>,
    recv: Option<Key>,
    sendSecret: Secret,
    recvRatchet: Option<PublicKey>,
    sendIndex: nat,
    recvIndex: nat,
    prevSend: nat,
    skipped: map<SkippedId, Key>)

  type Opened = Result<Option<string>, Error>

  function SenderState(shared: Key, peerPreKey: Option<PublicKey>, own: Secret): SessionState {
    SessionState(shared, Some(shared), None, own, peerPreKey, 0, 0, 0, map[])
  }

  function ResponderState(shared: Key, peerRatchet: PublicKey, own: Secret): SessionState {
    SessionState(shared, None, Some(shared), own, Some(peerRatchet), 0, 0, 0, map[])
  }

  function DecryptWithMessageKey(c: Ciphertext, key: Key, expected: Header): Opened {
    match c
    case NotBase64 => Failure(InvalidBase64)
    case TooShort => Failure(PayloadTooShort)
    case Sealed(k, body) =>
      if k != key then Success(None) else
      match body
      case NotUtf8 => Failure(Utf8)
      case Plain(text) => Success(Some(text))
      case BadHeader => Failure(Json)
      case Envelope(header, text) => if header == expected then Success(Some(text)) else Success(None)
  }

  /** A box opens under its own key only, and a text sealed with a header only under that header. */
  lemma OpensExactlyWhen(c: Ciphertext, key: Key, expected: Header, text: string)
    ensures DecryptWithMessageKey(c, key, expected) == Success(Some(text)) <==>
              c == Sealed(key, Plain(text)) || c == Sealed(key, Envelope(expected, text))
  {
  }

  // ----- the value-level operations -----

  function EnsuredSendChain(s: SessionState, keypair: Option<Secret>): Result<SessionState, Error> {
    if s.send.Some? then Success(s)
    else if s.recvRatchet.None? then Failure(MissingPeerRatchetKey)
    else if keypair.None? then Failure(Crypto(RandomFailed))
    else
      match NaclBoxBefore(s.recvRatchet.value, keypair.value)
      case Failure(e) => Failure(Crypto(e))
      case Success(dh) =>
        var (root, chain) := KdfRoot(s.root, dh);
        Success(s.(root := root, send := Some(chain), sendSecret := keypair.value,
                   prevSend := s.sendIndex, sendIndex := 0))
  }

  function Encrypted(s: SessionState, text: string, keypair: Option<Secret>, sealing: Sealing)
    : (SessionState, Result<Message, Error>)
  {
    match EnsuredSendChain(s, keypair)
    case Failure(e) => (s, Failure(e))
    case Success(t) =>
      if t.send.None? then (t, Failure(MissingSendChain)) else
      var (next, key) := KdfChain(t.send.value);
      var header := Header(Point(t.sendSecret), t.sendIndex, t.prevSend);
      var after := t.(send := Some(next), sendIndex := t.sendIndex + 1);
      match sealing
      case SealPaddingFailed => (after, Failure(MetadataPaddingFailed))
      case SealNonceFailed => (after, Failure(NonceFailed))
      case SealOk => (after, Success(Message(header, Sealed(key, Envelope(header, text)))))
  }

  /** The skipped keys after storing the message keys of indices from..until of a chain. */
  function StoreSkipped(skipped: map<SkippedId, Key>, ratchetKey: PublicKey, chain: Key, from: nat, until: nat)
    : map<SkippedId, Key>
    decreases until - from
  {
    if until <= from then skipped
    else StoreSkipped(skipped[SkippedId(ratchetKey, from) := MessageKey(chain)],
                      ratchetKey, NextChain(chain), from + 1, until)
  }

  function SkippedTo(s: SessionState, until: nat): Result<SessionState, Error> {
    if until < s.recvIndex then Success(s)
    else if until - s.recvIndex > MAX_SKIP then Failure(TooManySkippedMessages)
    else if s.recv.None? then Failure(MissingReceiveChain)
    else if s.recvRatchet.None? then Failure(MissingPeerRatchetKey)
    else Success(s.(skipped := StoreSkipped(s.skipped, s.recvRatchet.value, s.recv.value, s.recvIndex, until),
                    recv := Some(ChainAt(s.recv.value, until - s.recvIndex)),
                    recvIndex := until))
  }

  /** The step to a new peer ratchet key: finish the old chain, then derive both new chains. */
  function Ratcheted(s: SessionState, header: Header, keypair: Option<Secret>): Result<SessionState, Error> {
    var finished := if s.recv.Some? then SkippedTo(s, header.pn) else Success(s);
    if finished.Failure? then finished else
    var f := finished.value;
    match NaclBoxBefore(header.ratchetKey, f.sendSecret)
    case Failure(e) => Failure(Crypto(e))
    case Success(dh) =>
      var (midRoot, recv) := KdfRoot(f.root, dh);
      if keypair.None? then Failure(Crypto(RandomFailed)) else
      match NaclBoxBefore(header.ratchetKey, keypair.value)
      case Failure(e) => Failure(Crypto(e))
      case Success(sendDh) =>
        var (root, send) := KdfRoot(midRoot, sendDh);
        Success(f.(root := root, recv := Some(recv), recvRatchet := Some(header.ratchetKey), recvIndex := 0,
                   send := Some(send), sendSecret := keypair.value, prevSend := f.sendIndex, sendIndex := 0))
  }

  /** The draft a message is opened against, standing at the message's own index. */
  function Prepared(s: SessionState, header: Header, keypair: Option<Secret>): Result<SessionState, Error> {
    var current := if s.recvRatchet != Some(header.ratchetKey) then Ratcheted(s, header, keypair) else Success(s);
    if current.Failure? then current else SkippedTo(current.value, header.n)
  }

  function Decrypted(s: SessionState, m: Message, keypair: Option<Secret>): (SessionState, Opened) {
    var id := SkippedId(m.header.ratchetKey, m.header.n);
    if id in s.skipped then
      (s.(skipped := s.skipped - {id}), DecryptWithMessageKey(m.ciphertext, s.skipped[id], m.header))
    else
      match Prepared(s, m.header, keypair)
      case Failure(e) => (s, Failure(e))
      case Success(draft) =>
        if draft.recv.None? then (s, Failure(MissingReceiveChain)) else
        var (next, key) := KdfChain(draft.recv.value);
        var after := draft.(recv := Some(next), recvIndex := draft.recvIndex + 1);
        var outcome := DecryptWithMessageKey(m.ciphertext, key, m.header);
        if outcome.Success? && outcome.value.Some? then (after, outcome) else (s, outcome)
  }

  predicate YieldsPlaintext(o: Opened) {
    o.Success? && o.value.Some?
  }

  // ----- the class -----

  class Session {
    var rootKey: Key
    var sendChainKey: Option<Key>
    var recvChainKey: Option<Key>
    var sendRatchetPublicKey: PublicKey
    var sendRatchetSecretKey: Secret
    var recvRatchetPublicKey: Option<PublicKey>
    var sendChainIndex: nat
    var recvChainIndex: nat
    var previousSendChainLength: nat
    var skippedKeys: map<SkippedId, Key>

    ghost predicate Valid()
      reads this
    {
      sendRatchetPublicKey == Point(sendRatchetSecretKey)
    }

    ghost function State(): SessionState
      reads this
    {
      SessionState(rootKey, sendChainKey, recvChainKey, sendRatchetSecretKey, recvRatchetPublicKey,
                   sendChainIndex, recvChainIndex, previousSendChainLength, skippedKeys)
    }

    constructor NewSender(shared: Key, peerPreKey: Option<PublicKey>, own: Secret)
      ensures Valid() && State() == SenderState(shared, peerPreKey, own)
    {
      rootKey, sendChainKey, recvChainKey := shared, Some(shared), None;
      sendRatchetPublicKey, sendRatchetSecretKey := Point(own), own;
      recvRatchetPublicKey := peerPreKey;
      sendChainIndex, recvChainIndex, previousSendChainLength := 0, 0, 0;
      skippedKeys := map[];
    }

    constructor NewResponder(shared: Key, peerRatchet: PublicKey, own: Secret)
      ensures Valid() && State() == ResponderState(shared, peerRatchet, own)
    {
      rootKey, sendChainKey, recvChainKey := shared, None, Some(shared);
      sendRatchetPublicKey, sendRatchetSecretKey := Point(own), own;
      recvRatchetPublicKey := Some(peerRatchet);
      sendChainIndex, recvChainIndex, previousSendChainLength := 0, 0, 0;
      skippedKeys := map[];
    }

    constructor Clone(other: Session)
      requires other.Valid()
      ensures Valid() && State() == other.State()
    {
      rootKey, sendChainKey, recvChainKey := other.rootKey, other.sendChainKey, other.recvChainKey;
      sendRatchetPublicKey, sendRatchetSecretKey := other.sendRatchetPublicKey, other.sendRatchetSecretKey;
      recvRatchetPublicKey := other.recvRatchetPublicKey;
      sendChainIndex, recvChainIndex := other.sendChainIndex, other.recvChainIndex;
      previousSendChainLength, skippedKeys := other.previousSendChainLength, other.skippedKeys;
    }

    method Assign(other: Session)
      requires other.Valid()
      modifies this
      ensures Valid() && State() == old(other.State())
    {
      rootKey, sendChainKey, recvChainKey := other.rootKey, other.sendChainKey, other.recvChainKey;
      sendRatchetPublicKey, sendRatchetSecretKey := other.sendRatchetPublicKey, other.sendRatchetSecretKey;
      recvRatchetPublicKey := other.recvRatchetPublicKey;
      sendChainIndex, recvChainIndex := other.sendChainIndex, other.recvChainIndex;
      previousSendChainLength, skippedKeys := other.previousSendChainLength, other.skippedKeys;
    }

    method EnsureSendChain(keypair: Option<Secret>) returns (failed: Option<Error>)
      requires Valid()
      modifies this
      ensures Valid()
      ensures match EnsuredSendChain(old(State()), keypair)
              case Success(s) => failed == None && State() == s
              case Failure(e) => failed == Some(e) && State() == old(State())
    {
      if sendChainKey.Some? {
        return None;
      }
      if recvRatchetPublicKey.None? {
        return Some(MissingPeerRatchetKey);
      }
      if keypair.None? {
        return Some(Crypto(RandomFailed));
      }
      var dh := NaclBoxBefore(recvRatchetPublicKey.value, keypair.value);
      if dh.Failure? {
        return Some(Crypto(dh.error));
      }
      var (newRoot, newChain) := KdfRoot(rootKey, dh.value);
      rootKey := newRoot;
      sendChainKey := Some(newChain);
      sendRatchetPublicKey, sendRatchetSecretKey := Point(keypair.value), keypair.value;
      previousSendChainLength := sendChainIndex;
      sendChainIndex := 0;
      failed := None;
    }

    method Encrypt(text: string, keypair: Option<Secret>, sealing: Sealing) returns (r: Result<Message, Error>)
      requires Valid()
      modifies this
      ensures Valid()
      ensures (State(), r) == Encrypted(old(State()), text, keypair, sealing)
    {
      var failed := EnsureSendChain(keypair);
      if failed.Some? {
        return Failure(failed.value);
      }
      if sendChainKey.None? {
        return Failure(MissingSendChain);
      }
      var (nextChain, messageKey) := KdfChain(sendChainKey.value);
      sendChainKey := Some(nextChain);
      var header := Header(sendRatchetPublicKey, sendChainIndex, previousSendChainLength);
      sendChainIndex := sendChainIndex + 1;
      match sealing
      case SealPaddingFailed => r := Failure(MetadataPaddingFailed);
      case SealNonceFailed => r := Failure(NonceFailed);
      case SealOk => r := Success(Message(header, Sealed(messageKey, Envelope(header, text))));
    }

    method SkipMessageKeys(until: nat) returns (failed: Option<Error>)
      requires Valid()
      modifies this
      ensures Valid()
      ensures match SkippedTo(old(State()), until)
              case Success(s) => failed == None && State() == s
              case Failure(e) => failed == Some(e) && State() == old(State())
    {
      if until < recvChainIndex {
        return None;
      }
      if until - recvChainIndex > MAX_SKIP {
        return Some(TooManySkippedMessages);
      }
      if recvChainKey.None? {
        return Some(MissingReceiveChain);
      }
      if recvRatchetPublicKey.None? {
        return Some(MissingPeerRatchetKey);
      }
      var chain := recvChainKey.value;
      var ratchetKey := recvRatchetPublicKey.value;
      for index := recvChainIndex to until
        invariant old(State()) == State().(skipped := old(skippedKeys))
        invariant chain == ChainAt(recvChainKey.value, index - recvChainIndex)
        invariant StoreSkipped(skippedKeys, ratchetKey, chain, index, until)
               == StoreSkipped(old(skippedKeys), ratchetKey, recvChainKey.value, recvChainIndex, until)
        invariant Valid()
      {
        var (nextChain, messageKey) := KdfChain(chain);
        skippedKeys := skippedKeys[SkippedId(ratchetKey, index) := messageKey];
        chain := nextChain;
      }
      recvChainKey := Some(chain);
      recvChainIndex := until;
      failed := None;
    }

    method Decrypt(m: Message, keypair: Option<Secret>) returns (r: Opened)
      requires Valid()
      modifies this
      ensures Valid()
      ensures (State(), r) == Decrypted(old(State()), m, keypair)
    {
      var id := SkippedId(m.header.ratchetKey, m.header.n);
      if id in skippedKeys {
        var key := skippedKeys[id];
        skippedKeys := skippedKeys - {id};
        return DecryptWithMessageKey(m.ciphertext, key, m.header);
      }

      var draft := new Session.Clone(this);
      if draft.recvRatchetPublicKey != Some(m.header.ratchetKey) {
        var failed := draft.RatchetTo(m.header, keypair);
        if failed.Some? {
          return Failure(failed.value);
        }
      }
      var skip := draft.SkipMessageKeys(m.header.n);
      if skip.Some? {
        return Failure(skip.value);
      }
      if draft.recvChainKey.None? {
        return Failure(MissingReceiveChain);
      }
      var (nextChain, messageKey) := KdfChain(draft.recvChainKey.value);
      draft.recvChainKey := Some(nextChain);
      draft.recvChainIndex := draft.recvChainIndex + 1;
      r := DecryptWithMessageKey(m.ciphertext, messageKey, m.header);
      if r.Success? && r.value.Some? {
        Assign(draft);
      }
    }

    /** The body of the ratchet branch of `decrypt`, run on the draft. */
    method RatchetTo(header: Header, keypair: Option<Secret>) returns (failed: Option<Error>)
      requires Valid()
      modifies this
      ensures Valid()
      ensures match Ratcheted(old(State()), header, keypair)
              case Success(s) => failed == None && State() == s
              case Failure(e) => failed == Some(e)
    {
      if recvChainKey.Some? {
        var skip := SkipMessageKeys(header.pn);
        if skip.Some? {
          return skip;
        }
      }
      var dh := NaclBoxBefore(header.ratchetKey, sendRatchetSecretKey);
      if dh.Failure? {
        return Some(Crypto(dh.error));
      }
      var (newRoot, newRecv) := KdfRoot(rootKey, dh.value);
      rootKey := newRoot;
      recvChainKey := Some(newRecv);
      recvRatchetPublicKey := Some(header.ratchetKey);
      recvChainIndex := 0;
      if keypair.None? {
        return Some(Crypto(RandomFailed));
      }
      var sendDh := NaclBoxBefore(header.ratchetKey, keypair.value);
      if sendDh.Failure? {
        return Some(Crypto(sendDh.error));
      }
      var (finalRoot, newSend) := KdfRoot(rootKey, sendDh.value);
      rootKey := finalRoot;
      sendChainKey := Some(newSend);
      sendRatchetPublicKey, sendRatchetSecretKey := Point(keypair.value), keypair.value;
      previousSendChainLength := sendChainIndex;
      sendChainIndex := 0;
      failed := None;
    }
  }

  // ----- what one call leaves behind -----

  /**
   A decrypt that yields no plaintext changes nothing, except that it drops the one skipped key
   stored under the message's own id; with no such key the session is exactly what it was.
   */
  lemma FailedDecryptKeepsSession(s: SessionState, m: Message, keypair: Option<Secret>)
    requires !YieldsPlaintext(Decrypted(s, m, keypair).1)
    ensures var id := SkippedId(m.header.ratchetKey, m.header.n);
            Decrypted(s, m, keypair).0 == s.(skipped := s.skipped - {id})
  {
    var id := SkippedId(m.header.ratchetKey, m.header.n);
    if id !in s.skipped {
      assert s.skipped - {id} == s.skipped;
    }
  }

  /** What a loop of insertions leaves in the skipped map, one id at a time. */
  lemma {:induction false} StoreSkippedAt(
    skipped: map<SkippedId, Key>, ratchetKey: PublicKey, chain: Key, from: nat, until: nat, id: SkippedId)
    requires from <= until
    ensures var stored := StoreSkipped(skipped, ratchetKey, chain, from, until);
            if id.ratchetKey == ratchetKey && from <= id.n < until
            then id in stored && stored[id] == MessageKey(ChainAt(chain, id.n - from))
            else (id in stored <==> id in skipped) && (id in stored ==> stored[id] == skipped[id])
    decreases until - from
  {
    if from < until {
      StoreSkippedAt(skipped[SkippedId(ratchetKey, from) := MessageKey(chain)],
                     ratchetKey, NextChain(chain), from + 1, until, id);
      if from < id.n {
        ChainAtStep(chain, id.n - from - 1);
      }
    }
  }

  lemma StoreSkippedContents(
    skipped: map<SkippedId, Key>, ratchetKey: PublicKey, chain: Key, from: nat, until: nat)
    requires from <= until
    ensures var stored := StoreSkipped(skipped, ratchetKey, chain, from, until);
            forall id: SkippedId ::
              if id.ratchetKey == ratchetKey && from <= id.n < until
              then id in stored && stored[id] == MessageKey(ChainAt(chain, id.n - from))
              else (id in stored <==> id in skipped) && (id in stored ==> stored[id] == skipped[id])
  {
    forall id: SkippedId
      ensures var stored := StoreSkipped(skipped, ratchetKey, chain, from, until);
              if id.ratchetKey == ratchetKey && from <= id.n < until
              then id in stored && stored[id] == MessageKey(ChainAt(chain, id.n - from))
              else (id in stored <==> id in skipped) && (id in stored ==> stored[id] == skipped[id])
    {
      StoreSkippedAt(skipped, ratchetKey, chain, from, until, id);
    }
  }
}
