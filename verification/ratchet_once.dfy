/**
 One session over any run of sends and receives (clients/windows/src/ratchet.rs:217-340).

 The messages received are arbitrary: forged, replayed, or carrying any ratchet key.  Each key a
 run derives lies at its own place in one order of chain keys, so `encrypt` never repeats a header
 or a message key, and a message that has been read once is never read again.
 */
module RatchetOnce {
  import opened Wrappers
  import opened Keys
  import opened Ratchet

  datatype Step =
    | Send(text: string, keypair: Option<Secret>, sealing: Sealing)
    | Receive(message: Message, keypair: Option<Secret>)

  /** A session with what it has emitted, what it has read, and every secret it has held. */
  datatype Log = Log(state: SessionState, sent: seq<Message>, read: seq<Message>, minted: set<Secret>)

  function AsSender(shared: Key, peerPreKey: Option<PublicKey>, own: Secret): Log {
    Log(SenderState(shared, peerPreKey, own), [], [], {own})
  }

  function AsResponder(shared: Key, peerRatchet: PublicKey, own: Secret): Log {
    Log(ResponderState(shared, peerRatchet, own), [], [], {own})
  }

  function Apply(log: Log, step: Step): Log {
    var minted := if step.keypair.Some? then log.minted + {step.keypair.value} else log.minted;
    match step
    case Send(text, keypair, sealing) =>
      var (state, r) := Encrypted(log.state, text, keypair, sealing);
      log.(state := state, sent := if r.Success? then log.sent + [r.value] else log.sent, minted := minted)
    case Receive(message, keypair) =>
      var (state, r) := Decrypted(log.state, message, keypair);
      log.(state := state, read := if YieldsPlaintext(r) then log.read + [message] else log.read, minted := minted)
  }

  /** Key pairs are generated, so none of them repeats an earlier one. */
  predicate Generated(log: Log, steps: seq<Step>)
    decreases |steps|
  {
    steps == [] ||
    ((steps[0].keypair.Some? ==> steps[0].keypair.value !in log.minted) && Generated(Apply(log, steps[0]), steps[1..]))
  }

  function Run(log: Log, steps: seq<Step>): Log
    decreases |steps|
  {
    if steps == [] then log else Run(Apply(log, steps[0]), steps[1..])
  }

  // ----- the order of chain keys -----

  ghost predicate Earlier(c: Key, d: Key) {
    Depth(c) < Depth(d) || (Depth(c) == Depth(d) && Steps(c) < Steps(d))
  }

  /** A message key taken from a chain position before `chain`. */
  ghost predicate Behind(key: Key, chain: Key) {
    key.MessageKey? && Earlier(key.chain, chain)
  }

  // ----- sending -----

  ghost predicate Emitted(m: Message, s: SessionState, minted: set<Secret>) {
    && s.send.Some?
    && m.ciphertext.Sealed?
    && Behind(m.ciphertext.key, s.send.value)
    && m.header.ratchetKey.Point?
    && m.header.ratchetKey.secret in minted
    && (m.header.ratchetKey.secret == s.sendSecret ==> m.header.n < s.sendIndex)
  }

  ghost predicate NoRepeats(sent: seq<Message>)
    requires forall i :: 0 <= i < |sent| ==> sent[i].ciphertext.Sealed?
  {
    forall i, j :: 0 <= i < j < |sent| ==>
      && (sent[i].header.ratchetKey, sent[i].header.n) != (sent[j].header.ratchetKey, sent[j].header.n)
      && sent[i].ciphertext.key != sent[j].ciphertext.key
  }

  ghost predicate SendInvariant(log: Log) {
    && log.state.sendSecret in log.minted
    && (log.state.send.Some? ==> Depth(log.state.send.value) <= Depth(log.state.root))
    && (forall i :: 0 <= i < |log.sent| ==> Emitted(log.sent[i], log.state, log.minted))
    && NoRepeats(log.sent)
  }

  lemma SendStepKeepsSendInvariant(log: Log, step: Step)
    requires step.Send? && SendInvariant(log)
    requires step.keypair.Some? ==> step.keypair.value !in log.minted
    ensures SendInvariant(Apply(log, step))
  {
    var next := Apply(log, step);
    var t := EnsuredSendChain(log.state, step.keypair);
    if t.Success? {
      forall i | 0 <= i < |log.sent|
        ensures Emitted(log.sent[i], t.value, next.minted)
      {
        assert Emitted(log.sent[i], log.state, log.minted);
      }
      assert Earlier(t.value.send.value, next.state.send.value);
    }
  }

  lemma ReceiveKeepsSendChain(s: SessionState, m: Message, keypair: Option<Secret>)
    ensures var t := Decrypted(s, m, keypair).0;
            || (t.root, t.send, t.sendSecret, t.sendIndex) == (s.root, s.send, s.sendSecret, s.sendIndex)
            || (keypair == Some(t.sendSecret) && t.send.Some? && t.sendIndex == 0 &&
                Depth(t.send.value) == Depth(t.root) == Depth(s.root) + 2)
  {
  }

  lemma ReceiveStepKeepsSendInvariant(log: Log, step: Step)
    requires step.Receive? && SendInvariant(log)
    requires step.keypair.Some? ==> step.keypair.value !in log.minted
    ensures SendInvariant(Apply(log, step))
  {
    var next := Apply(log, step);
    ReceiveKeepsSendChain(log.state, step.message, step.keypair);
    forall i | 0 <= i < |log.sent|
      ensures Emitted(log.sent[i], next.state, next.minted)
    {
      assert Emitted(log.sent[i], log.state, log.minted);
    }
  }

  // ----- receiving -----

  /**
   Every stored or spent message key lies behind the receive chain, stored keys differ from each
   other and from the spent ones.
   */
  ghost predicate ReceiveInvariant(s: SessionState, spent: set<Key>) {
    && (s.recv.None? ==> s.skipped == map[] && spent == {})
    && (s.recv.Some? ==>
          && Depth(s.recv.value) <= Depth(s.root)
          && (forall key :: key in spent ==> Behind(key, s.recv.value))
          && (forall id :: id in s.skipped ==> Behind(s.skipped[id], s.recv.value)))
    && (forall id :: id in s.skipped ==> s.skipped[id] !in spent)
    && (forall id, jd :: id in s.skipped && jd in s.skipped && id != jd ==> s.skipped[id] != s.skipped[jd])
  }

  /** After skipping, an id holds either the key it held before or the key of its place in the chain. */
  lemma SkippedHolds(s: SessionState, until: nat, id: SkippedId)
    requires SkippedTo(s, until).Success? && s.recvIndex <= until
    requires id in SkippedTo(s, until).value.skipped
    ensures var key := SkippedTo(s, until).value.skipped[id];
            || (id in s.skipped && key == s.skipped[id])
            || (key.MessageKey? && s.recvRatchet == Some(id.ratchetKey) && s.recvIndex <= id.n < until &&
                Depth(key.chain) == Depth(s.recv.value) && Steps(key.chain) == Steps(s.recv.value) + id.n - s.recvIndex)
  {
    StoreSkippedAt(s.skipped, s.recvRatchet.value, s.recv.value, s.recvIndex, until, id);
    if s.recvRatchet == Some(id.ratchetKey) && s.recvIndex <= id.n < until {
      ChainAtMeasures(s.recv.value, id.n - s.recvIndex);
    }
  }

  lemma SkippedDiffer(s: SessionState, spent: set<Key>, until: nat, id: SkippedId, jd: SkippedId)
    requires ReceiveInvariant(s, spent) && SkippedTo(s, until).Success? && s.recvIndex <= until
    requires id in SkippedTo(s, until).value.skipped && jd in SkippedTo(s, until).value.skipped && id != jd
    ensures SkippedTo(s, until).value.skipped[id] != SkippedTo(s, until).value.skipped[jd]
  {
    SkippedHolds(s, until, id);
    SkippedHolds(s, until, jd);
  }

  lemma SkippingKeepsReceiveInvariant(s: SessionState, spent: set<Key>, until: nat)
    requires ReceiveInvariant(s, spent) && SkippedTo(s, until).Success?
    ensures ReceiveInvariant(SkippedTo(s, until).value, spent)
    ensures s.recv.Some? ==> SkippedTo(s, until).value.recv.Some?
  {
    if s.recvIndex <= until {
      var t := SkippedTo(s, until).value;
      ChainAtMeasures(s.recv.value, until - s.recvIndex);
      forall id | id in t.skipped
        ensures Behind(t.skipped[id], t.recv.value) && t.skipped[id] !in spent
      {
        SkippedHolds(s, until, id);
      }
      forall id, jd | id in t.skipped && jd in t.skipped && id != jd
        ensures t.skipped[id] != t.skipped[jd]
      {
        SkippedDiffer(s, spent, until, id, jd);
      }
    }
  }

  lemma PreparingKeepsReceiveInvariant(s: SessionState, spent: set<Key>, header: Header, keypair: Option<Secret>)
    requires ReceiveInvariant(s, spent) && Prepared(s, header, keypair).Success?
    ensures ReceiveInvariant(Prepared(s, header, keypair).value, spent)
  {
    if s.recvRatchet != Some(header.ratchetKey) {
      var finished := if s.recv.Some? then SkippedTo(s, header.pn) else Success(s);
      if s.recv.Some? {
        SkippingKeepsReceiveInvariant(s, spent, header.pn);
      }
      assert ReceiveInvariant(finished.value, spent);
      var ratcheted := Ratcheted(s, header, keypair).value;
      assert ReceiveInvariant(ratcheted, spent);
      SkippingKeepsReceiveInvariant(ratcheted, spent, header.n);
    } else {
      SkippingKeepsReceiveInvariant(s, spent, header.n);
    }
  }

  lemma DecryptKeepsReceiveInvariant(s: SessionState, spent: set<Key>, m: Message, keypair: Option<Secret>)
    requires ReceiveInvariant(s, spent)
    ensures var (t, r) := Decrypted(s, m, keypair);
            if YieldsPlaintext(r)
            then m.ciphertext.Sealed? && m.ciphertext.key !in spent && ReceiveInvariant(t, spent + {m.ciphertext.key})
            else ReceiveInvariant(t, spent)
  {
    var id := SkippedId(m.header.ratchetKey, m.header.n);
    if id !in s.skipped && Prepared(s, m.header, keypair).Success? {
      PreparingKeepsReceiveInvariant(s, spent, m.header, keypair);
    }
  }

  ghost function Spent(read: seq<Message>): set<Key> {
    set m | m in read && m.ciphertext.Sealed? :: m.ciphertext.key
  }

  ghost predicate ReadInvariant(log: Log) {
    && ReceiveInvariant(log.state, Spent(log.read))
    && (forall m :: m in log.read ==> m.ciphertext.Sealed?)
    && (forall i, j :: 0 <= i < j < |log.read| ==> log.read[i].ciphertext != log.read[j].ciphertext)
  }

  lemma SendStepKeepsReadInvariant(log: Log, step: Step)
    requires step.Send? && ReadInvariant(log)
    ensures ReadInvariant(Apply(log, step))
  {
  }

  lemma ReceiveStepKeepsReadInvariant(log: Log, step: Step)
    requires step.Receive? && ReadInvariant(log)
    ensures ReadInvariant(Apply(log, step))
  {
    var next := Apply(log, step);
    DecryptKeepsReceiveInvariant(log.state, Spent(log.read), step.message, step.keypair);
    if YieldsPlaintext(Decrypted(log.state, step.message, step.keypair).1) {
      assert Spent(next.read) == Spent(log.read) + {step.message.ciphertext.key};
      forall i | 0 <= i < |log.read|
        ensures log.read[i].ciphertext != step.message.ciphertext
      {
        assert log.read[i] in log.read;
      }
    }
  }

  lemma {:induction false} RunKeepsInvariants(log: Log, steps: seq<Step>)
    requires SendInvariant(log) && ReadInvariant(log) && Generated(log, steps)
    ensures SendInvariant(Run(log, steps)) && ReadInvariant(Run(log, steps))
    decreases |steps|
  {
    if steps != [] {
      if steps[0].Send? {
        SendStepKeepsSendInvariant(log, steps[0]);
        SendStepKeepsReadInvariant(log, steps[0]);
      } else {
        ReceiveStepKeepsSendInvariant(log, steps[0]);
        ReceiveStepKeepsReadInvariant(log, steps[0]);
      }
      RunKeepsInvariants(Apply(log, steps[0]), steps[1..]);
    }
  }

  /** A session as either constructor leaves it, from any shared secret. */
  ghost predicate New(log: Log) {
    var s := log.state;
    || log == AsSender(s.root, s.recvRatchet, s.sendSecret)
    || (s.recvRatchet.Some? && log == AsResponder(s.root, s.recvRatchet.value, s.sendSecret))
  }

  // ----- the main results -----

  /**
   Over any run, no two emitted messages share their ratchet key and index, and no two were sealed
   under the same message key.
   */
  lemma EncryptNeverRepeats(start: Log, steps: seq<Step>)
    requires New(start) && Generated(start, steps)
    ensures var sent := Run(start, steps).sent;
            && (forall i :: 0 <= i < |sent| ==> sent[i].ciphertext.Sealed?)
            && NoRepeats(sent)
  {
    RunKeepsInvariants(start, steps);
    var log := Run(start, steps);
    forall i | 0 <= i < |log.sent|
      ensures log.sent[i].ciphertext.Sealed?
    {
      assert Emitted(log.sent[i], log.state, log.minted);
    }
  }

  /**
   What was read at some point of a run is not read again at any later point: no message with the
   same ciphertext, under whatever header and with whatever key pair the attempt generates.
   */
  lemma ReadAtMostOnce(start: Log, steps: seq<Step>, m: Message, again: Message, keypair: Option<Secret>)
    requires New(start) && Generated(start, steps)
    requires m in Run(start, steps).read && again.ciphertext == m.ciphertext
    ensures !YieldsPlaintext(Decrypted(Run(start, steps).state, again, keypair).1)
  {
    RunKeepsInvariants(start, steps);
    var log := Run(start, steps);
    DecryptKeepsReceiveInvariant(log.state, Spent(log.read), again, keypair);
    assert m.ciphertext.key in Spent(log.read);
  }
}
