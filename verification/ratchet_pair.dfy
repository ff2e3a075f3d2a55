/**
 Two ratchet sessions over a network that delays, reorders, duplicates and loses messages
 (clients/windows/src/ratchet.rs:124-178 and 217-377).

 The network keeps every posted packet and may deliver any of them at any time, or never.  It may
 also deliver messages of its own: under any header, but sealed under keys that do not come from the
 shared secret, or with the ciphertext of another header.  A ghost `Witness` records the chains both
 peers have built so far, numbered from 0: even chains run from the initiator to the responder, odd
 ones back.  The invariant computes both sessions from it.
 */
module RatchetPair {
  import opened Wrappers
  import opened Keys
  import opened Ratchet

  datatype Party = Initiator | Responder

  datatype Packet = Packet(to: Party, message: Message, text: string)

  /**
   Both sessions, every packet posted, the packets already read, the ids whose stored key a forgery has used up,
   and every secret generated.
   */
  datatype Net = Net(initiator: SessionState, responder: SessionState,
                     pool: seq<Packet>, read: set<nat>, burnt: set<SkippedId>, minted: set<Secret>)

  datatype Event =
    | Post(from: Party, text: string, keypair: Option<Secret>, sealing: Sealing)
    | Deliver(index: nat, keypair: Option<Secret>)
    | Forge(to: Party, message: Message, keypair: Option<Secret>)

  /** Nobody without the shared secret can do better: a foreign key, or a ciphertext made for another header. */
  predicate IsForged(m: Message, shared: Key) {
    m.ciphertext.Sealed? ==>
      || Base(m.ciphertext.key) != Base(shared)
      || (m.ciphertext.body.Envelope? && m.ciphertext.body.header != m.header)
  }

  function HeaderId(header: Header): SkippedId {
    SkippedId(header.ratchetKey, header.n)
  }

  /** The packet has been read, or a forgery has used up its stored key. */
  predicate Gone(net: Net, i: nat)
    requires i < |net.pool|
  {
    i in net.read || HeaderId(net.pool[i].message.header) in net.burnt
  }

  function Other(p: Party): Party {
    if p.Initiator? then Responder else Initiator
  }

  function At(net: Net, p: Party): SessionState {
    if p.Initiator? then net.initiator else net.responder
  }

  function With(net: Net, p: Party, s: SessionState): Net {
    if p.Initiator? then net.(initiator := s) else net.(responder := s)
  }

  /** `new_sender` at one end and `new_responder` for the sender's ratchet key at the other. */
  function Start(shared: Key, preKey: Option<PublicKey>, a: Secret, b: Secret): Net {
    Net(SenderState(shared, preKey, a), ResponderState(shared, Point(a), b), [], {}, {},
        {a, b} + (if preKey.Some? && preKey.value.Point? then {preKey.value.secret} else {}))
  }

  predicate Distinct(preKey: Option<PublicKey>, a: Secret, b: Secret) {
    a != b && preKey != Some(Point(a))
  }

  function Apply(net: Net, e: Event): Net {
    var minted := net.minted + (if e.keypair.Some? then {e.keypair.value} else {});
    match e
    case Post(from, text, keypair, sealing) =>
      var (s, r) := Encrypted(At(net, from), text, keypair, sealing);
      With(net, from, s).(minted := minted,
                          pool := if r.Success? then net.pool + [Packet(Other(from), r.value, text)] else net.pool)
    case Deliver(index, keypair) =>
      if index >= |net.pool| then net.(minted := minted) else
      var packet := net.pool[index];
      var (s, r) := Decrypted(At(net, packet.to), packet.message, keypair);
      With(net, packet.to, s).(minted := minted,
                               read := if YieldsPlaintext(r) then net.read + {index} else net.read)
    case Forge(to, message, keypair) =>
      var id := HeaderId(message.header);
      With(net, to, Decrypted(At(net, to), message, keypair).0)
        .(minted := minted, burnt := if id in At(net, to).skipped then net.burnt + {id} else net.burnt)
  }

  predicate Generated(net: Net, events: seq<Event>)
    decreases |events|
  {
    events == [] ||
    ((events[0].keypair.Some? ==> events[0].keypair.value !in net.minted) &&
     Generated(Apply(net, events[0]), events[1..]))
  }

  function Run(net: Net, events: seq<Event>): Net
    decreases |events|
  {
    if events == [] then net else Run(Apply(net, events[0]), events[1..])
  }

  /**
   What the receiver can check before it opens a message it has not read: a stored key is
   waiting, or no single skip exceeds 50 keys (and a new ratchet key finds a key pair generated).
   */
  predicate WithinSkip(s: SessionState, header: Header, keypair: Option<Secret>) {
    if SkippedId(header.ratchetKey, header.n) in s.skipped then true
    else if s.recvRatchet == Some(header.ratchetKey) then header.n <= s.recvIndex + 50
    else keypair.Some? && (s.recv.Some? ==> header.pn <= s.recvIndex + 50) && header.n <= 50
  }

  // ----- the chains of a conversation -----

  /** The n-th message key of a chain. */
  datatype Tag = Tag(chain: nat, n: nat)

  /** The ratchet secret each chain was built with, and how many messages it has given keys to. */
  datatype History = History(shared: Key, secrets: seq<Secret>, sent: seq<nat>)

  ghost predicate Sound(h: History) {
    && 1 <= |h.secrets| == |h.sent|
    && forall i, j :: 0 <= i < j < |h.secrets| ==> h.secrets[i] != h.secrets[j]
  }

  ghost function Root(h: History, i: nat): Key
    requires i < |h.secrets|
  {
    if i == 0 then h.shared else RootFrom(Root(h, i - 1), Agreement(h.secrets[i - 1], h.secrets[i]))
  }

  ghost function Chain(h: History, i: nat): Key
    requires i < |h.secrets|
  {
    if i == 0 then h.shared else ChainFrom(Root(h, i - 1), Agreement(h.secrets[i - 1], h.secrets[i]))
  }

  ghost function KeyOf(h: History, t: Tag): Key
    requires t.chain < |h.secrets|
  {
    MessageKey(ChainAt(Chain(h, t.chain), t.n))
  }

  ghost function Previous(h: History, chain: nat): nat
    requires chain < |h.sent|
  {
    if chain < 2 then 0 else h.sent[chain - 2]
  }

  ghost function IdOf(h: History, t: Tag): SkippedId
    requires t.chain < |h.secrets|
  {
    SkippedId(Point(h.secrets[t.chain]), t.n)
  }

  ghost function MessageOf(h: History, t: Tag, text: string): Message
    requires t.chain < |h.secrets| == |h.sent|
  {
    var header := Header(Point(h.secrets[t.chain]), t.n, Previous(h, t.chain));
    Message(header, Sealed(KeyOf(h, t), Envelope(header, text)))
  }

  ghost function ReceiverOf(chain: nat): Party {
    if chain % 2 == 0 then Responder else Initiator
  }

  // ----- what a session is, given the chains -----

  ghost function Bound(h: History, j: int, r: nat, chain: nat): nat
    requires chain < |h.sent|
  {
    if chain == j then r else h.sent[chain]
  }

  /** A message key the receiver has passed over and not used yet. */
  ghost predicate Pending(h: History, j: int, r: nat, taken: set<Tag>, t: Tag)
    requires |h.secrets| == |h.sent|
  {
    && t.chain < |h.sent|
    && t.chain <= j
    && t.chain % 2 == j % 2
    && t.n < Bound(h, j, r, t.chain)
    && t !in taken
  }

  ghost predicate Stores(h: History, t: Tag, skipped: map<SkippedId, Key>)
    requires t.chain < |h.secrets|
  {
    IdOf(h, t) in skipped && skipped[IdOf(h, t)] == KeyOf(h, t)
  }

  ghost predicate Accounted(h: History, j: int, r: nat, taken: set<Tag>, id: SkippedId)
    requires |h.secrets| == |h.sent|
  {
    exists t :: Pending(h, j, r, taken, t) && IdOf(h, t) == id
  }

  /** The skipped map holds the right key for every pending tag and nothing else. */
  ghost predicate SkippedExact(h: History, j: int, r: nat, taken: set<Tag>, skipped: map<SkippedId, Key>)
    requires |h.secrets| == |h.sent|
  {
    && (forall t :: Pending(h, j, r, taken, t) ==> Stores(h, t, skipped))
    && (forall id :: id in skipped ==> Accounted(h, j, r, taken, id))
  }

  ghost predicate SendSide(h: History, j: int, s: SessionState)
    requires Sound(h) && -1 <= j < |h.secrets|
  {
    if j + 1 < |h.secrets| then
      && s.root == Root(h, j + 1)
      && s.send == Some(ChainAt(Chain(h, j + 1), h.sent[j + 1]))
      && s.sendSecret == h.secrets[j + 1]
      && s.sendIndex == h.sent[j + 1]
      && s.prevSend == Previous(h, j + 1)
    else
      && j == 0
      && s.root == Root(h, j)
      && s.send == None
      && s.sendIndex == 0
  }

  ghost predicate ReceiveSide(h: History, j: int, r: nat, s: SessionState)
    requires Sound(h) && -1 <= j < |h.secrets|
  {
    && s.recvIndex == r
    && if j >= 0 then
         && r <= h.sent[j]
         && s.recv == Some(ChainAt(Chain(h, j), r))
         && s.recvRatchet == Some(Point(h.secrets[j]))
       else
         && r == 0
         && s.recv == None
         && (forall i :: 0 <= i < |h.secrets| ==> s.recvRatchet != Some(Point(h.secrets[i])))
  }

  ghost predicate TakenBelow(h: History, j: int, r: nat, taken: set<Tag>)
    requires Sound(h) && -1 <= j < |h.secrets|
  {
    forall t :: t in taken && t.chain % 2 == j % 2 ==> t.chain <= j && t.n < Bound(h, j, r, t.chain)
  }

  /**
   The session that receives on chain j (none when j is -1), has advanced it r steps, and sends
   on chain j + 1 once that chain exists.
   */
  ghost predicate Matches(h: History, j: int, r: nat, taken: set<Tag>, s: SessionState) {
    && Sound(h)
    && -1 <= j < |h.secrets|
    && SendSide(h, j, s)
    && ReceiveSide(h, j, r, s)
    && TakenBelow(h, j, r, taken)
    && SkippedExact(h, j, r, taken, s.skipped)
  }

  datatype Witness = Witness(h: History, ji: int, jr: int, ri: nat, rr: nat, tags: seq<Tag>, taken: set<Tag>)

  ghost function J(w: Witness, p: Party): int {
    if p.Initiator? then w.ji else w.jr
  }

  ghost function R(w: Witness, p: Party): nat {
    if p.Initiator? then w.ri else w.rr
  }

  ghost function Moved(w: Witness, p: Party, h: History, j: int, r: nat, taken: set<Tag>): Witness {
    if p.Initiator? then w.(h := h, ji := j, ri := r, taken := taken)
    else w.(h := h, jr := j, rr := r, taken := taken)
  }

  /** The peers take turns: each is at most one chain ahead of the other. */
  ghost predicate InStep(w: Witness) {
    && w.ji % 2 == 1 && w.jr % 2 == 0 && -1 <= w.ji && 0 <= w.jr
    && (w.ji == w.jr + 1 || w.jr == w.ji + 1)
    && (|| |w.h.secrets| == (if w.ji < w.jr then w.jr else w.ji) + 2
        || (|w.h.secrets| == 1 && w.ji == -1))
  }

  ghost predicate Pooled(h: History, t: Tag, packet: Packet) {
    && |h.secrets| == |h.sent|
    && t.chain < |h.secrets|
    && t.n < h.sent[t.chain]
    && packet == Packet(ReceiverOf(t.chain), MessageOf(h, t, packet.text), packet.text)
  }

  /** A used-up id is that of a message key the chains have given out and that is taken. */
  ghost predicate BurntTag(h: History, taken: set<Tag>, id: SkippedId, t: Tag) {
    |h.secrets| == |h.sent| && t in taken && t.chain < |h.secrets| && t.n < h.sent[t.chain] && IdOf(h, t) == id
  }

  /** The taken tags are those of the packets gone, and of keys used up that no packet was posted under. */
  ghost predicate TakenExact(h: History, tags: seq<Tag>, taken: set<Tag>, net: Net) {
    && |tags| == |net.pool|
    && (forall i :: 0 <= i < |tags| ==> (Gone(net, i) <==> tags[i] in taken))
    && (forall i :: i in net.read ==> i < |net.pool|)
    && (forall t :: t in taken ==> t in tags || (t.chain < |h.secrets| && IdOf(h, t) in net.burnt))
    && (forall id :: id in net.burnt ==> exists t :: BurntTag(h, taken, id, t))
  }

  ghost predicate PoolMatches(w: Witness, net: Net) {
    && |w.tags| == |net.pool|
    && (forall i :: 0 <= i < |w.tags| ==> Pooled(w.h, w.tags[i], net.pool[i]))
    && (forall i, k :: 0 <= i < k < |w.tags| ==> w.tags[i] != w.tags[k])
    && TakenExact(w.h, w.tags, w.taken, net)
  }

  ghost predicate PeerMatches(net: Net, w: Witness, p: Party) {
    var s := At(net, p);
    && Matches(w.h, J(w, p), R(w, p), w.taken, s)
    && (J(w, p) < 0 && s.recvRatchet.Some? && s.recvRatchet.value.Point? ==> s.recvRatchet.value.secret in net.minted)
  }

  ghost predicate Invariant(net: Net, w: Witness) {
    && Sound(w.h)
    && InStep(w)
    && (forall i :: 0 <= i < |w.h.secrets| ==> w.h.secrets[i] in net.minted)
    && PeerMatches(net, w, Initiator)
    && PeerMatches(net, w, Responder)
    && PoolMatches(w, net)
  }

  // ----- how chains grow -----

  ghost predicate Extends(h: History, h': History) {
    && Sound(h) && Sound(h')
    && h'.shared == h.shared
    && |h.secrets| <= |h'.secrets|
    && forall i :: 0 <= i < |h.secrets| ==> h.secrets[i] == h'.secrets[i]
  }

  lemma {:induction false} ChainsAreStable(h: History, h': History, i: nat)
    requires Extends(h, h') && i < |h.secrets|
    ensures Root(h, i) == Root(h', i) && Chain(h, i) == Chain(h', i)
  {
    if i > 0 {
      ChainsAreStable(h, h', i - 1);
    }
  }

  lemma {:induction false} ChainDepths(h: History, i: nat)
    requires i < |h.secrets|
    ensures Depth(Root(h, i)) == Depth(h.shared) + i
    ensures Depth(Chain(h, i)) == Depth(h.shared) + i
  {
    if i > 0 {
      ChainDepths(h, i - 1);
    }
  }

  /** The skipped map stays exact when the same tags are pending under the same ids and keys. */
  lemma SkippedTransfers(h: History, j: int, r: nat, taken: set<Tag>,
                         h': History, j': int, r': nat, taken': set<Tag>, skipped: map<SkippedId, Key>)
    requires |h.secrets| == |h.sent| && |h'.secrets| == |h'.sent|
    requires SkippedExact(h, j, r, taken, skipped)
    requires forall t :: Pending(h, j, r, taken, t) <==> Pending(h', j', r', taken', t)
    requires forall t :: Pending(h, j, r, taken, t) ==>
                           t.chain < |h'.secrets| && IdOf(h, t) == IdOf(h', t) && KeyOf(h, t) == KeyOf(h', t)
    ensures SkippedExact(h', j', r', taken', skipped)
  {
    forall id | id in skipped
      ensures exists t :: Pending(h', j', r', taken', t) && IdOf(h', t) == id
    {
      var t :| Pending(h, j, r, taken, t) && IdOf(h, t) == id;
      assert Pending(h', j', r', taken', t) && IdOf(h', t) == id;
    }
  }

  lemma KeysAreStable(h: History, h': History, t: Tag)
    requires Extends(h, h') && t.chain < |h.secrets|
    ensures IdOf(h, t) == IdOf(h', t) && KeyOf(h, t) == KeyOf(h', t)
  {
    ChainsAreStable(h, h', t.chain);
  }

  /** A session still matches when the chains grow where it does not look. */
  lemma MatchesIsStable(h: History, h': History, j: int, r: nat, taken: set<Tag>, taken': set<Tag>, s: SessionState)
    requires Matches(h, j, r, taken, s) && Extends(h, h')
    requires j + 1 < |h.secrets| || |h'.secrets| == |h.secrets|
    requires forall i :: 0 <= i < |h.secrets| && i <= j + 1 && i != j ==> h'.sent[i] == h.sent[i]
    requires 0 <= j ==> h.sent[j] <= h'.sent[j]
    requires forall t: Tag :: t.chain % 2 == j % 2 ==> (t in taken <==> t in taken')
    requires j < 0 ==> forall i :: 0 <= i < |h'.secrets| ==> s.recvRatchet != Some(Point(h'.secrets[i]))
    ensures Matches(h', j, r, taken', s)
  {
    hide SkippedExact;
    assert SendSide(h', j, s) by {
      ChainsAreStable(h, h', if j + 1 < |h.secrets| then j + 1 else j);
    }
    assert ReceiveSide(h', j, r, s) by {
      if 0 <= j {
        ChainsAreStable(h, h', j);
      }
    }
    forall t | Pending(h, j, r, taken, t)
      ensures IdOf(h, t) == IdOf(h', t) && KeyOf(h, t) == KeyOf(h', t)
    {
      KeysAreStable(h, h', t);
    }
    SkippedTransfers(h, j, r, taken, h', j, r, taken', s.skipped);
  }

  lemma PooledIsStable(h: History, h': History, t: Tag, packet: Packet)
    requires Pooled(h, t, packet) && Extends(h, h')
    requires h.sent[t.chain] <= h'.sent[t.chain]
    requires t.chain >= 2 ==> h'.sent[t.chain - 2] == h.sent[t.chain - 2]
    ensures Pooled(h', t, packet)
  {
    ChainsAreStable(h, h', t.chain);
  }

  /** Ids and tags determine each other. */
  lemma IdsAreDistinct(h: History, t: Tag, u: Tag)
    requires Sound(h) && t.chain < |h.secrets| && u.chain < |h.secrets| && IdOf(h, t) == IdOf(h, u)
    ensures t == u
  {
  }

  lemma NotPendingNotStored(h: History, j: int, r: nat, taken: set<Tag>, s: SessionState, t: Tag)
    requires Matches(h, j, r, taken, s) && t.chain < |h.secrets| && !Pending(h, j, r, taken, t)
    ensures IdOf(h, t) !in s.skipped
  {
    if IdOf(h, t) in s.skipped {
      var u :| Pending(h, j, r, taken, u) && IdOf(h, u) == IdOf(h, t);
      IdsAreDistinct(h, t, u);
    }
  }

  // ----- receiving, one session at a time -----

  lemma SkipStoresPending(h: History, j: int, r: nat, taken: set<Tag>, s: SessionState, until: nat, u: Tag)
    requires Matches(h, j, r, taken, s) && 0 <= j && r <= until <= h.sent[j] && until - r <= MAX_SKIP
    requires Pending(h, j, until, taken, u)
    ensures var stored := SkippedTo(s, until).value.skipped;
            IdOf(h, u) in stored && stored[IdOf(h, u)] == KeyOf(h, u)
  {
    var key := Point(h.secrets[j]);
    StoreSkippedAt(s.skipped, key, s.recv.value, r, until, IdOf(h, u));
    if u.chain == j && r <= u.n {
      ChainAtAdd(Chain(h, j), r, u.n - r);
    } else {
      assert Pending(h, j, r, taken, u);
    }
  }

  lemma SkipStoresOnlyPending(h: History, j: int, r: nat, taken: set<Tag>, s: SessionState, until: nat, id: SkippedId)
    returns (u: Tag)
    requires Matches(h, j, r, taken, s) && 0 <= j && r <= until <= h.sent[j] && until - r <= MAX_SKIP
    requires id in SkippedTo(s, until).value.skipped
    ensures Pending(h, j, until, taken, u) && IdOf(h, u) == id
  {
    var key := Point(h.secrets[j]);
    StoreSkippedAt(s.skipped, key, s.recv.value, r, until, id);
    if id.ratchetKey == key && r <= id.n < until {
      u := Tag(j, id.n);
      assert u !in taken;
    } else {
      u :| Pending(h, j, r, taken, u) && IdOf(h, u) == id;
    }
  }

  /** Skipping forward along the receive chain stores exactly the keys passed over. */
  lemma SkipMatches(h: History, j: int, r: nat, taken: set<Tag>, s: SessionState, until: nat)
    requires Matches(h, j, r, taken, s) && 0 <= j && r <= until <= h.sent[j] && until - r <= MAX_SKIP
    ensures SkippedTo(s, until).Success? && Matches(h, j, until, taken, SkippedTo(s, until).value)
  {
    var t := SkippedTo(s, until).value;
    assert ReceiveSide(h, j, until, t) by {
      ChainAtAdd(Chain(h, j), r, until - r);
    }
    assert SendSide(h, j, t);
    forall u | Pending(h, j, until, taken, u)
      ensures IdOf(h, u) in t.skipped && t.skipped[IdOf(h, u)] == KeyOf(h, u)
    {
      SkipStoresPending(h, j, r, taken, s, until, u);
    }
    forall id | id in t.skipped
      ensures exists u :: Pending(h, j, until, taken, u) && IdOf(h, u) == id
    {
      var u := SkipStoresOnlyPending(h, j, r, taken, s, until, id);
    }
  }

  ghost function Advanced(s: SessionState): SessionState
    requires s.recv.Some?
  {
    s.(recv := Some(NextChain(s.recv.value)), recvIndex := s.recvIndex + 1)
  }

  /** Taking the key at the current position opens the message of that position. */
  lemma TakeMatches(h: History, j: int, n: nat, taken: set<Tag>, s: SessionState)
    requires Matches(h, j, n, taken, s) && 0 <= j && n < h.sent[j]
    ensures MessageKey(s.recv.value) == KeyOf(h, Tag(j, n))
    ensures Matches(h, j, n + 1, taken + {Tag(j, n)}, Advanced(s))
  {
    var taken' := taken + {Tag(j, n)};
    forall u: Tag
      ensures Pending(h, j, n + 1, taken', u) <==> Pending(h, j, n, taken, u)
    {
    }
    forall id | id in s.skipped
      ensures exists u :: Pending(h, j, n + 1, taken', u) && IdOf(h, u) == id
    {
      var u :| Pending(h, j, n, taken, u) && IdOf(h, u) == id;
      assert Pending(h, j, n + 1, taken', u);
    }
  }

  lemma OthersStayStored(h: History, t: Tag, u: Tag, skipped: map<SkippedId, Key>)
    requires Sound(h) && t.chain < |h.secrets| && u.chain < |h.secrets| && t != u && Stores(h, u, skipped)
    ensures Stores(h, u, skipped - {IdOf(h, t)})
  {
    if IdOf(h, u) == IdOf(h, t) {
      IdsAreDistinct(h, t, u);
    }
  }

  lemma OthersStayAccounted(h: History, j: int, r: nat, taken: set<Tag>, t: Tag, id: SkippedId)
    requires Sound(h) && t.chain < |h.secrets| && id != IdOf(h, t) && Accounted(h, j, r, taken, id)
    ensures Accounted(h, j, r, taken + {t}, id)
  {
    var u :| Pending(h, j, r, taken, u) && IdOf(h, u) == id;
    assert Pending(h, j, r, taken + {t}, u);
  }

  /** Without the stored key of a tag, the map is exact for the tags left. */
  lemma RemovingKeepsExact(h: History, j: int, r: nat, taken: set<Tag>, skipped: map<SkippedId, Key>, t: Tag)
    requires Sound(h) && SkippedExact(h, j, r, taken, skipped) && Pending(h, j, r, taken, t)
    ensures SkippedExact(h, j, r, taken + {t}, skipped - {IdOf(h, t)})
  {
    hide Stores;
    hide Accounted;
    forall u | Pending(h, j, r, taken + {t}, u)
      ensures Stores(h, u, skipped - {IdOf(h, t)})
    {
      assert Pending(h, j, r, taken, u);
      OthersStayStored(h, t, u, skipped);
    }
    forall id | id in skipped - {IdOf(h, t)}
      ensures Accounted(h, j, r, taken + {t}, id)
    {
      OthersStayAccounted(h, j, r, taken, t, id);
    }
  }

  /** Using a stored key removes exactly that key. */
  lemma StoredMatches(h: History, j: int, r: nat, taken: set<Tag>, s: SessionState, t: Tag)
    requires Matches(h, j, r, taken, s) && Pending(h, j, r, taken, t)
    ensures IdOf(h, t) in s.skipped && s.skipped[IdOf(h, t)] == KeyOf(h, t)
    ensures Matches(h, j, r, taken + {t}, s.(skipped := s.skipped - {IdOf(h, t)}))
  {
    RemovingKeepsExact(h, j, r, taken, s.skipped, t);
    assert IdOf(h, t) in s.skipped && s.skipped[IdOf(h, t)] == KeyOf(h, t);
    hide SkippedExact;
  }

  ghost function Grown(h: History, minted: Secret): History {
    h.(secrets := h.secrets + [minted], sent := h.sent + [0])
  }

  /** Everything the ratchet step does before it derives new chains: the old receive chain is completed. */
  lemma FinishMatches(h: History, j: int, r: nat, taken: set<Tag>, s: SessionState, pn: nat)
    requires Matches(h, j, r, taken, s) && |h.secrets| > j + 2
    requires pn == Previous(h, j + 2)
    requires 0 <= j ==> pn <= r + MAX_SKIP
    ensures var finished := if s.recv.Some? then SkippedTo(s, pn) else Success(s);
            finished.Success? && Matches(h, j, pn, taken, finished.value)
  {
    if 0 <= j {
      SkipMatches(h, j, r, taken, s, pn);
    }
  }

  lemma GrownExtends(h: History, minted: Secret)
    requires Sound(h) && minted !in h.secrets
    ensures Extends(h, Grown(h, minted))
  {
  }

  /** The session a completed one turns into on a new peer key: both chains derived, in the source's order. */
  ghost function Turned(f: SessionState, peer: Secret, minted: Secret): SessionState {
    var mid := RootFrom(f.root, Agreement(peer, f.sendSecret));
    f.(root := RootFrom(mid, Agreement(peer, minted)),
       recv := Some(ChainFrom(f.root, Agreement(peer, f.sendSecret))),
       recvRatchet := Some(Point(peer)), recvIndex := 0,
       send := Some(ChainFrom(mid, Agreement(peer, minted))),
       sendSecret := minted, prevSend := f.sendIndex, sendIndex := 0)
  }

  lemma RatchetedIsTurned(s: SessionState, header: Header, minted: Secret)
    requires header.ratchetKey.Point?
    ensures var finished := if s.recv.Some? then SkippedTo(s, header.pn) else Success(s);
            Ratcheted(s, header, Some(minted)) ==
              if finished.Failure? then finished
              else Success(Turned(finished.value, header.ratchetKey.secret, minted))
  {
  }

  lemma TurnedSides(h: History, j: int, f: SessionState, minted: Secret)
    requires Sound(h) && |h.secrets| == j + 3 && -1 <= j && minted !in h.secrets && SendSide(h, j, f)
    ensures Sound(Grown(h, minted))
    ensures SendSide(Grown(h, minted), j + 2, Turned(f, h.secrets[j + 2], minted))
    ensures ReceiveSide(Grown(h, minted), j + 2, 0, Turned(f, h.secrets[j + 2], minted))
  {
    var h' := Grown(h, minted);
    GrownExtends(h, minted);
    ChainsAreStable(h, h', j + 1);
    ChainsAreStable(h, h', j + 2);
  }

  /** The ratchet step onto the peer's next chain builds the chain the peer built, and one more. */
  lemma RatchetMatches(h: History, j: int, r: nat, taken: set<Tag>, s: SessionState, t: Tag, minted: Secret)
    requires Matches(h, j, r, taken, s) && t.chain == j + 2 && |h.secrets| == j + 3
    requires minted !in h.secrets
    requires 0 <= j ==> Previous(h, j + 2) <= r + MAX_SKIP
    ensures var header := Header(Point(h.secrets[j + 2]), t.n, Previous(h, j + 2));
            && Ratcheted(s, header, Some(minted)).Success?
            && Matches(Grown(h, minted), j + 2, 0, taken, Ratcheted(s, header, Some(minted)).value)
  {
    hide SkippedExact;
    hide Ratcheted;
    hide SkippedTo;
    hide SendSide;
    hide ReceiveSide;
    var pn := Previous(h, j + 2);
    var header := Header(Point(h.secrets[j + 2]), t.n, pn);
    var h' := Grown(h, minted);
    RatchetedIsTurned(s, header, minted);
    FinishMatches(h, j, r, taken, s, pn);
    var f := if s.recv.Some? then SkippedTo(s, pn).value else s;
    TurnedSides(h, j, f, minted);
    GrownExtends(h, minted);
    forall u
      ensures Pending(h', j + 2, 0, taken, u) <==> Pending(h, j, pn, taken, u)
      ensures Pending(h, j, pn, taken, u) ==> IdOf(h, u) == IdOf(h', u) && KeyOf(h, u) == KeyOf(h', u)
    {
      if Pending(h, j, pn, taken, u) {
        KeysAreStable(h, h', u);
      }
    }
    SkippedTransfers(h, j, pn, taken, h', j + 2, 0, taken, f.skipped);
  }

  /** The message of a tag can reach this receiver: its chain is one the receiver knows, or the next one. */
  ghost predicate Reaches(h: History, j: int, t: Tag) {
    && |h.secrets| == |h.sent|
    && t.chain < |h.secrets|
    && t.n < h.sent[t.chain]
    && t.chain % 2 == j % 2
    && t.chain <= j + 2
    && (t.chain == j + 2 ==> |h.secrets| == j + 3)
  }

  lemma OpensStored(h: History, j: int, r: nat, taken: set<Tag>, s: SessionState, t: Tag, text: string,
                    keypair: Option<Secret>)
    requires Matches(h, j, r, taken, s) && Pending(h, j, r, taken, t)
    ensures var (s', o) := Decrypted(s, MessageOf(h, t, text), keypair);
            o == Success(Some(text)) && Matches(h, j, r, taken + {t}, s')
  {
    StoredMatches(h, j, r, taken, s, t);
  }

  lemma OpensCurrent(h: History, j: int, r: nat, taken: set<Tag>, s: SessionState, t: Tag, text: string,
                     keypair: Option<Secret>)
    requires Matches(h, j, r, taken, s) && Reaches(h, j, t) && t.chain == j && r <= t.n <= r + MAX_SKIP
    ensures var (s', o) := Decrypted(s, MessageOf(h, t, text), keypair);
            o == Success(Some(text)) && Matches(h, j, t.n + 1, taken + {t}, s')
  {
    hide SkippedExact;
    NotPendingNotStored(h, j, r, taken, s, t);
    SkipMatches(h, j, r, taken, s, t.n);
    TakeMatches(h, j, t.n, taken, SkippedTo(s, t.n).value);
  }

  lemma OpensNext(h: History, j: int, r: nat, taken: set<Tag>, s: SessionState, t: Tag, text: string, minted: Secret)
    requires Matches(h, j, r, taken, s) && Reaches(h, j, t) && t.chain == j + 2 && t.n <= MAX_SKIP
    requires minted !in h.secrets
    requires 0 <= j ==> Previous(h, j + 2) <= r + MAX_SKIP
    ensures var (s', o) := Decrypted(s, MessageOf(h, t, text), Some(minted));
            o == Success(Some(text)) && Matches(Grown(h, minted), j + 2, t.n + 1, taken + {t}, s')
  {
    hide SkippedExact;
    NotPendingNotStored(h, j, r, taken, s, t);
    RatchetMatches(h, j, r, taken, s, t, minted);
    GrownExtends(h, minted);
    KeysAreStable(h, Grown(h, minted), t);
    var g := Ratcheted(s, MessageOf(h, t, text).header, Some(minted)).value;
    assert s.recvRatchet != Some(Point(h.secrets[j + 2]));
    SkipMatches(Grown(h, minted), j + 2, 0, taken, g, t.n);
    TakeMatches(Grown(h, minted), j + 2, t.n, taken, SkippedTo(g, t.n).value);
  }

  /** A genuine message not read yet is opened exactly when the receiver's check passes. */
  lemma UnreadOpens(h: History, j: int, r: nat, taken: set<Tag>, s: SessionState, t: Tag, text: string,
                    keypair: Option<Secret>)
    returns (h': History, j': int, r': nat)
    requires Matches(h, j, r, taken, s) && Reaches(h, j, t) && t !in taken
    requires keypair.Some? ==> keypair.value !in h.secrets
    requires WithinSkip(s, MessageOf(h, t, text).header, keypair)
    ensures var (s', o) := Decrypted(s, MessageOf(h, t, text), keypair);
            o == Success(Some(text)) && Matches(h', j', r', taken + {t}, s')
    ensures 0 <= j'
    ensures (h', j') == (h, j) ||
            (t.chain == j + 2 && keypair.Some? && h' == Grown(h, keypair.value) && j' == j + 2)
  {
    hide SkippedExact;
    if Pending(h, j, r, taken, t) {
      OpensStored(h, j, r, taken, s, t, text, keypair);
      h', j', r' := h, j, r;
    } else {
      NotPendingNotStored(h, j, r, taken, s, t);
      if t.chain == j {
        OpensCurrent(h, j, r, taken, s, t, text, keypair);
        h', j', r' := h, j, t.n + 1;
      } else {
        assert s.recvRatchet != Some(Point(h.secrets[t.chain]));
        OpensNext(h, j, r, taken, s, t, text, keypair.value);
        h', j', r' := Grown(h, keypair.value), j + 2, t.n + 1;
      }
    }
  }

  lemma BeyondSkipFails(h: History, j: int, r: nat, taken: set<Tag>, s: SessionState, t: Tag, text: string,
                        keypair: Option<Secret>)
    requires Matches(h, j, r, taken, s) && Reaches(h, j, t) && t !in taken
    requires !WithinSkip(s, MessageOf(h, t, text).header, keypair)
    ensures Decrypted(s, MessageOf(h, t, text), keypair).1.Failure?
    ensures Decrypted(s, MessageOf(h, t, text), keypair).0 == s
  {
  }

  lemma ChainKeysDiffer(c: Key, m: nat, d: Key, n: nat)
    requires Depth(c) != Depth(d) || (c == d && m != n)
    ensures MessageKey(ChainAt(c, m)) != MessageKey(ChainAt(d, n))
  {
    ChainAtMeasures(c, m);
    ChainAtMeasures(d, n);
  }

  /** A ratchet step always takes its receive chain from a root deeper than every chain received so far. */
  lemma RatchetGoesDeeper(s: SessionState, header: Header, keypair: Option<Secret>)
    requires Ratcheted(s, header, keypair).Success?
    ensures var g := Ratcheted(s, header, keypair).value;
            g.recv.Some? && Depth(g.recv.value) == Depth(s.root) + 1 && g.recvIndex == 0
  {
  }

  /** A message already read is not read again, and trying changes nothing. */
  lemma ReplayFails(h: History, j: int, r: nat, taken: set<Tag>, s: SessionState, t: Tag, text: string,
                    keypair: Option<Secret>)
    requires Matches(h, j, r, taken, s) && Reaches(h, j, t) && t in taken
    ensures var (s', o) := Decrypted(s, MessageOf(h, t, text), keypair);
            !YieldsPlaintext(o) && s' == s
  {
    hide SkippedExact;
    if t.chain == j {
      ReplayFailsHere(h, j, r, taken, s, t, text, keypair);
    } else {
      ReplayFailsElsewhere(h, j, r, taken, s, t, text, keypair);
    }
  }

  lemma ReplayFailsHere(h: History, j: int, r: nat, taken: set<Tag>, s: SessionState, t: Tag, text: string,
                        keypair: Option<Secret>)
    requires Matches(h, j, r, taken, s) && Reaches(h, j, t) && t in taken && t.chain == j
    ensures var (s', o) := Decrypted(s, MessageOf(h, t, text), keypair);
            !YieldsPlaintext(o) && s' == s
  {
    hide SkippedExact;
    NotPendingNotStored(h, j, r, taken, s, t);
    ChainKeysDiffer(Chain(h, j), r, Chain(h, j), t.n);
  }

  lemma ReplayFailsElsewhere(h: History, j: int, r: nat, taken: set<Tag>, s: SessionState, t: Tag, text: string,
                             keypair: Option<Secret>)
    requires Matches(h, j, r, taken, s) && Reaches(h, j, t) && t in taken && t.chain != j
    ensures var (s', o) := Decrypted(s, MessageOf(h, t, text), keypair);
            !YieldsPlaintext(o) && s' == s
  {
    hide SkippedExact;
    var m := MessageOf(h, t, text);
    NotPendingNotStored(h, j, r, taken, s, t);
    if Prepared(s, m.header, keypair).Success? {
      RatchetGoesDeeper(s, m.header, keypair);
      var g := Ratcheted(s, m.header, keypair).value;
      ChainDepths(h, t.chain);
      ChainDepths(h, if j + 1 < |h.secrets| then j + 1 else j);
      ChainKeysDiffer(g.recv.value, t.n, Chain(h, t.chain), t.n);
    }
  }

  // ----- sending, one session at a time -----

  /** The responder's first send builds chain 1. */
  lemma FirstReplyMatches(h: History, r: nat, taken: set<Tag>, s: SessionState, minted: Secret)
    requires Matches(h, 0, r, taken, s) && |h.secrets| == 1 && minted !in h.secrets
    ensures EnsuredSendChain(s, Some(minted)).Success?
    ensures Matches(Grown(h, minted), 0, r, taken, EnsuredSendChain(s, Some(minted)).value)
  {
    hide SkippedExact;
    var h' := Grown(h, minted);
    GrownExtends(h, minted);
    assert Root(h', 1) == RootFrom(h.shared, Agreement(h.secrets[0], minted));
    forall t | Pending(h, 0, r, taken, t)
      ensures IdOf(h, t) == IdOf(h', t) && KeyOf(h, t) == KeyOf(h', t)
    {
      KeysAreStable(h, h', t);
    }
    SkippedTransfers(h, 0, r, taken, h', 0, r, taken, s.skipped);
  }

  ghost function Counted(h: History, chain: nat): History
    requires chain < |h.sent|
  {
    h.(sent := h.sent[chain := h.sent[chain] + 1])
  }

  /** Taking the next key of the send chain, whether or not the message is then sealed. */
  lemma NextKeyMatches(h: History, j: int, r: nat, taken: set<Tag>, s: SessionState)
    requires Matches(h, j, r, taken, s) && j + 1 < |h.secrets|
    ensures var s' := s.(send := Some(NextChain(s.send.value)), sendIndex := s.sendIndex + 1);
            Matches(Counted(h, j + 1), j, r, taken, s')
    ensures MessageKey(s.send.value) == KeyOf(h, Tag(j + 1, h.sent[j + 1]))
  {
    hide SkippedExact;
    var h' := Counted(h, j + 1);
    var s' := s.(send := Some(NextChain(s.send.value)), sendIndex := s.sendIndex + 1);
    assert Extends(h, h');
    assert SendSide(h', j, s') by {
      ChainsAreStable(h, h', j + 1);
    }
    assert ReceiveSide(h', j, r, s') by {
      if 0 <= j {
        ChainsAreStable(h, h', j);
      }
    }
    forall t | Pending(h, j, r, taken, t)
      ensures IdOf(h, t) == IdOf(h', t) && KeyOf(h, t) == KeyOf(h', t)
    {
      KeysAreStable(h, h', t);
    }
    SkippedTransfers(h, j, r, taken, h', j, r, taken, s.skipped);
  }

  // ----- both sessions and the network -----

  lemma StartHolds(shared: Key, preKey: Option<PublicKey>, a: Secret, b: Secret)
    requires Distinct(preKey, a, b)
    ensures Invariant(Start(shared, preKey, a, b),
                      Witness(History(shared, [a], [0]), -1, 0, 0, 0, [], {}))
  {
    var h := History(shared, [a], [0]);
    assert Matches(h, -1, 0, {}, SenderState(shared, preKey, a));
    assert Matches(h, 0, 0, {}, ResponderState(shared, Point(a), b));
  }

  lemma TagReaches(net: Net, w: Witness, i: nat)
    requires Invariant(net, w) && i < |net.pool|
    ensures net.pool[i].to == ReceiverOf(w.tags[i].chain)
    ensures Reaches(w.h, J(w, net.pool[i].to), w.tags[i])
  {
    hide Matches;
    assert Pooled(w.h, w.tags[i], net.pool[i]);
  }

  /** How the chains may grow when peer p acts: only p's own send chain counts, new secrets are new. */
  ghost predicate GrowsFor(net: Net, w: Witness, p: Party, h': History) {
    && Extends(w.h, h')
    && (forall i :: 0 <= i < |w.h.secrets| && i != J(w, p) + 1 ==> h'.sent[i] == w.h.sent[i])
    && (0 <= J(w, p) + 1 < |w.h.secrets| ==> w.h.sent[J(w, p) + 1] <= h'.sent[J(w, p) + 1])
    && (forall i :: |w.h.secrets| <= i < |h'.secrets| ==> h'.secrets[i] !in net.minted)
    && (|h'.secrets| == |w.h.secrets| || J(w, Other(p)) + 1 < |w.h.secrets|)
  }

  lemma OtherPeerMatches(net: Net, w: Witness, p: Party, h': History, taken': set<Tag>)
    requires Invariant(net, w) && GrowsFor(net, w, p, h')
    requires forall t: Tag :: ReceiverOf(t.chain) == Other(p) ==> (t in w.taken <==> t in taken')
    ensures Matches(h', J(w, Other(p)), R(w, Other(p)), taken', At(net, Other(p)))
  {
    hide SkippedExact;
    hide PoolMatches;
    var q := Other(p);
    assert Matches(w.h, J(w, q), R(w, q), w.taken, At(net, q));
    assert J(w, q) == J(w, p) + 1 || J(w, q) == J(w, p) - 1;
    MatchesIsStable(w.h, h', J(w, q), R(w, q), w.taken, taken', At(net, q));
  }

  lemma PoolStillMatches(net: Net, w: Witness, p: Party, h': History, i: nat)
    requires Invariant(net, w) && GrowsFor(net, w, p, h') && i < |net.pool|
    ensures Pooled(h', w.tags[i], net.pool[i])
  {
    TagReaches(net, w, i);
    var t := w.tags[i];
    assert t.chain < 2 || t.chain - 2 != J(w, p) + 1;
    PooledIsStable(w.h, h', t, net.pool[i]);
  }

  /** What was taken stays accounted for while the chains grow. */
  lemma TakenStaysExact(net: Net, w: Witness, p: Party, h': History, net': Net)
    requires Invariant(net, w) && GrowsFor(net, w, p, h')
    requires net'.pool == net.pool && net'.read == net.read && net'.burnt == net.burnt
    ensures TakenExact(h', w.tags, w.taken, net')
  {
    hide Matches;
    hide InStep;
    forall id | id in net'.burnt
      ensures exists t :: BurntTag(h', w.taken, id, t)
    {
      var t :| BurntTag(w.h, w.taken, id, t);
      assert BurntTag(h', w.taken, id, t);
    }
  }

  /**
   Peer p's session and chains move to a matching state; the rest of the invariant follows.
   */
  lemma MovedHolds(net: Net, w: Witness, p: Party, net': Net, h': History, j': int, r': nat, taken': set<Tag>)
    requires Invariant(net, w) && GrowsFor(net, w, p, h')
    requires net' == With(net, p, At(net', p)).(minted := net'.minted, read := net'.read, burnt := net'.burnt)
    requires net.minted <= net'.minted && forall i :: 0 <= i < |h'.secrets| ==> h'.secrets[i] in net'.minted
    requires Matches(h', j', r', taken', At(net', p))
    requires forall t: Tag :: ReceiverOf(t.chain) == Other(p) ==> (t in w.taken <==> t in taken')
    requires TakenExact(h', w.tags, taken', net')
    requires j' < 0 ==> J(w, p) < 0 && At(net', p).recvRatchet == At(net, p).recvRatchet
    requires InStep(Moved(w, p, h', j', r', taken'))
    ensures Invariant(net', Moved(w, p, h', j', r', taken'))
  {
    hide Matches;
    hide TakenExact;
    var w' := Moved(w, p, h', j', r', taken');
    OtherPeerMatches(net, w, p, h', taken');
    assert PeerMatches(net', w', p) && PeerMatches(net', w', Other(p));
    forall i | 0 <= i < |w'.tags|
      ensures Pooled(h', w'.tags[i], net'.pool[i])
    {
      PoolStillMatches(net, w, p, h', i);
    }
  }

  ghost function Minted(net: Net, keypair: Option<Secret>): set<Secret> {
    net.minted + (if keypair.Some? then {keypair.value} else {})
  }

  lemma IdleHolds(net: Net, w: Witness, minted: set<Secret>)
    requires Invariant(net, w) && net.minted <= minted
    ensures Invariant(net.(minted := minted), w)
  {
    hide Matches;
  }

  /** Before a peer sends, its send chain exists. */
  lemma EnsureHolds(net: Net, w: Witness, p: Party, keypair: Option<Secret>) returns (w': Witness)
    requires Invariant(net, w) && (keypair.Some? ==> keypair.value !in net.minted)
    requires EnsuredSendChain(At(net, p), keypair).Success?
    ensures Invariant(With(net, p, EnsuredSendChain(At(net, p), keypair).value).(minted := Minted(net, keypair)), w')
    ensures 0 <= J(w', p) + 1 < |w'.h.secrets| && w'.h.shared == w.h.shared
  {
    var s := EnsuredSendChain(At(net, p), keypair).value;
    var net' := With(net, p, s).(minted := Minted(net, keypair));
    assert Matches(w.h, J(w, p), R(w, p), w.taken, At(net, p));
    if J(w, p) + 1 < |w.h.secrets| {
      w' := w;
      assert net' == net.(minted := Minted(net, keypair));
      IdleHolds(net, w, Minted(net, keypair));
    } else {
      FirstReplyMatches(w.h, R(w, p), w.taken, At(net, p), keypair.value);
      var h' := Grown(w.h, keypair.value);
      GrownExtends(w.h, keypair.value);
      w' := Moved(w, p, h', J(w, p), R(w, p), w.taken);
      TakenStaysExact(net, w, p, h', net');
      MovedHolds(net, w, p, net', h', J(w, p), R(w, p), w.taken);
    }
  }

  ghost function NextKeyTaken(s: SessionState): SessionState
    requires s.send.Some?
  {
    s.(send := Some(NextChain(s.send.value)), sendIndex := s.sendIndex + 1)
  }

  lemma CountedGrows(net: Net, w: Witness, p: Party)
    requires Invariant(net, w) && J(w, p) + 1 < |w.h.secrets|
    ensures GrowsFor(net, w, p, Counted(w.h, J(w, p) + 1))
    ensures InStep(w.(h := Counted(w.h, J(w, p) + 1)))
  {
    hide Matches;
    hide PoolMatches;
  }

  lemma SendsNext(net: Net, w: Witness, p: Party)
    requires Invariant(net, w) && J(w, p) + 1 < |w.h.secrets|
    ensures At(net, p).send.Some? && Sound(w.h) && 0 <= J(w, p) + 1
    ensures Matches(Counted(w.h, J(w, p) + 1), J(w, p), R(w, p), w.taken, NextKeyTaken(At(net, p)))
  {
    hide SkippedExact;
    hide TakenBelow;
    hide PoolMatches;
    assert PeerMatches(net, w, p);
    NextKeyMatches(w.h, J(w, p), R(w, p), w.taken, At(net, p));
  }

  /** The next key of the send chain is taken, whether or not the message is then sealed. */
  lemma SealHolds(net: Net, w: Witness, p: Party)
    requires Invariant(net, w) && J(w, p) + 1 < |w.h.secrets|
    ensures At(net, p).send.Some?
    ensures Invariant(With(net, p, NextKeyTaken(At(net, p))), w.(h := Counted(w.h, J(w, p) + 1)))
  {
    hide Matches;
    hide GrowsFor;
    hide InStep;
    hide PoolMatches;
    hide TakenExact;
    SendsNext(net, w, p);
    CountedGrows(net, w, p);
    var s, j, r := At(net, p), J(w, p), R(w, p);
    var h' := Counted(w.h, j + 1);
    assert Moved(w, p, h', j, r, w.taken) == w.(h := h');
    var net' := With(net, p, NextKeyTaken(s));
    TakenStaysExact(net, w, p, h', net');
    MovedHolds(net, w, p, net', h', j, r, w.taken);
  }

  lemma NextTagIsNew(net: Net, w: Witness, p: Party)
    requires Invariant(net, w) && J(w, p) + 1 < |w.h.secrets|
    ensures var t := Tag(J(w, p) + 1, w.h.sent[J(w, p) + 1]);
            t !in w.tags && t !in w.taken
  {
    hide SkippedExact;
    var t := Tag(J(w, p) + 1, w.h.sent[J(w, p) + 1]);
    assert PeerMatches(net, w, Other(p));
    forall i | 0 <= i < |w.tags|
      ensures w.tags[i] != t
    {
      assert Pooled(w.h, w.tags[i], net.pool[i]);
    }
  }

  /** A packet whose key was the last one taken joins the pool. */
  lemma PostedHolds(net: Net, w: Witness, t: Tag, packet: Packet)
    requires Invariant(net, w) && Pooled(w.h, t, packet)
    requires t !in w.tags && t !in w.taken
    ensures Invariant(net.(pool := net.pool + [packet]), w.(tags := w.tags + [t]))
  {
    hide Matches;
    var net' := net.(pool := net.pool + [packet]);
    var w' := w.(tags := w.tags + [t]);
    assert PeerMatches(net', w', Initiator) && PeerMatches(net', w', Responder);
  }

  lemma SealsNext(h: History, j: int, s: SessionState, text: string)
    requires Sound(h) && -1 <= j && j + 1 < |h.secrets| && SendSide(h, j, s)
    ensures var t, h' := Tag(j + 1, h.sent[j + 1]), Counted(h, j + 1);
            var header := Header(Point(s.sendSecret), s.sendIndex, s.prevSend);
            && s.send.Some? && Sound(h')
            && MessageOf(h', t, text) == Message(header, Sealed(MessageKey(s.send.value), Envelope(header, text)))
  {
    KeysAreStable(h, Counted(h, j + 1), Tag(j + 1, h.sent[j + 1]));
  }

  /** The packet a send posts is the genuine message of the key it took. */
  lemma SealedUnder(net: Net, w: Witness, p: Party, text: string)
    requires Invariant(net, w) && J(w, p) + 1 < |w.h.secrets|
    ensures var t := Tag(J(w, p) + 1, w.h.sent[J(w, p) + 1]);
            var s := At(net, p);
            var header := Header(Point(s.sendSecret), s.sendIndex, s.prevSend);
            && s.send.Some?
            && t.chain < |w.h.sent|
            && Sound(Counted(w.h, t.chain))
            && MessageOf(Counted(w.h, t.chain), t, text)
                 == Message(header, Sealed(MessageKey(s.send.value), Envelope(header, text)))
            && Pooled(Counted(w.h, t.chain), t, Packet(Other(p), MessageOf(Counted(w.h, t.chain), t, text), text))
  {
    hide SkippedExact;
    hide TakenBelow;
    hide PoolMatches;
    hide SendSide;
    hide ReceiveSide;
    hide MessageOf;
    assert PeerMatches(net, w, p);
    SealsNext(w.h, J(w, p), At(net, p), text);
  }

  /** What a post does, in the two steps `ensure_send_chain` and taking the next key. */
  lemma PostInSteps(net: Net, e: Event)
    requires e.Post?
    ensures var p, minted := e.from, Minted(net, e.keypair);
            var ensured := EnsuredSendChain(At(net, p), e.keypair);
            if ensured.Failure? then Apply(net, e) == net.(minted := minted)
            else
              var s := ensured.value;
              var header := Header(Point(s.sendSecret), s.sendIndex, s.prevSend);
              && s.send.Some?
              && var taken := With(net, p, NextKeyTaken(s)).(minted := minted);
                 Apply(net, e) ==
                   if e.sealing.SealOk?
                   then taken.(pool := taken.pool + [Packet(Other(p), Message(header, Sealed(MessageKey(s.send.value),
                                                            Envelope(header, e.text))), e.text)])
                   else taken
  {
  }

  lemma PostHolds(net: Net, w: Witness, e: Event) returns (w': Witness)
    requires Invariant(net, w) && e.Post? && (e.keypair.Some? ==> e.keypair.value !in net.minted)
    ensures Invariant(Apply(net, e), w') && w'.h.shared == w.h.shared
  {
    hide Apply;
    hide Invariant;
    hide EnsuredSendChain;
    PostInSteps(net, e);
    var p, minted := e.from, Minted(net, e.keypair);
    var ensured := EnsuredSendChain(At(net, p), e.keypair);
    if ensured.Failure? {
      w' := w;
      IdleHolds(net, w, minted);
    } else {
      var w1 := EnsureHolds(net, w, p, e.keypair);
      var net1 := With(net, p, ensured.value).(minted := minted);
      SealHolds(net1, w1, p);
      SealedUnder(net1, w1, p, e.text);
      NextTagIsNew(net1, w1, p);
      var t := Tag(J(w1, p) + 1, w1.h.sent[J(w1, p) + 1]);
      var net2 := With(net1, p, NextKeyTaken(At(net1, p)));
      w' := w1.(h := Counted(w1.h, t.chain));
      if e.sealing.SealOk? {
        PostedHolds(net2, w', t, Packet(Other(p), MessageOf(w'.h, t, e.text), e.text));
        w' := w'.(tags := w'.tags + [t]);
      }
    }
  }

  lemma PooledIsTagged(net: Net, w: Witness, i: nat)
    requires Invariant(net, w) && i < |net.pool|
    ensures w.tags[i].chain < |w.h.secrets| == |w.h.sent|
    ensures net.pool[i].message == MessageOf(w.h, w.tags[i], net.pool[i].text)
    ensures HeaderId(net.pool[i].message.header) == IdOf(w.h, w.tags[i])
    ensures Gone(net, i) <==> w.tags[i] in w.taken
  {
    hide Matches;
    assert Pooled(w.h, w.tags[i], net.pool[i]);
  }

  /** Reading a packet takes its tag and no other. */
  lemma TakingStaysExact(h: History, tags: seq<Tag>, taken: set<Tag>, net: Net, index: nat, net': Net)
    requires TakenExact(h, tags, taken, net) && index < |net.pool| && !Gone(net, index)
    requires forall i, k :: 0 <= i < k < |tags| ==> tags[i] != tags[k]
    requires net'.pool == net.pool && net'.read == net.read + {index} && net'.burnt == net.burnt
    ensures TakenExact(h, tags, taken + {tags[index]}, net')
  {
    var taken' := taken + {tags[index]};
    forall i | 0 <= i < |tags|
      ensures Gone(net', i) <==> tags[i] in taken'
    {
      assert Gone(net', i) <==> i == index || Gone(net, i);
    }
    forall id | id in net'.burnt
      ensures exists t :: BurntTag(h, taken', id, t)
    {
      var t :| BurntTag(h, taken, id, t);
      assert BurntTag(h, taken', id, t);
    }
  }

  lemma ReadingStaysExact(net: Net, w: Witness, p: Party, h': History, index: nat, net': Net)
    requires Invariant(net, w) && GrowsFor(net, w, p, h') && index < |net.pool| && !Gone(net, index)
    requires net'.pool == net.pool && net'.read == net.read + {index} && net'.burnt == net.burnt
    ensures TakenExact(h', w.tags, w.taken + {w.tags[index]}, net')
  {
    hide Matches;
    hide InStep;
    hide TakenExact;
    hide Gone;
    hide GrowsFor;
    hide Pooled;
    TakenStaysExact(net, w, p, h', net);
    TakingStaysExact(h', w.tags, w.taken, net, index, net');
  }

  /** How the chains grow when a message is opened. */
  lemma OpeningGrows(net: Net, w: Witness, p: Party, h': History, j': int, keypair: Option<Secret>)
    requires Invariant(net, w) && (keypair.Some? ==> keypair.value !in net.minted)
    requires (h', j') == (w.h, J(w, p)) ||
             (|w.h.secrets| == J(w, p) + 3 && keypair.Some? && h' == Grown(w.h, keypair.value) && j' == J(w, p) + 2)
    ensures GrowsFor(net, w, p, h') && h'.shared == w.h.shared
    ensures forall r': nat, taken': set<Tag> :: InStep(Moved(w, p, h', j', r', taken'))
    ensures forall i :: 0 <= i < |h'.secrets| ==> h'.secrets[i] in Minted(net, keypair)
  {
    hide Matches;
    hide PoolMatches;
    if h' != w.h {
      GrownExtends(w.h, keypair.value);
    }
  }

  /** A packet neither read nor burnt, and within the skip bound, yields its text. */
  lemma OpenHolds(net: Net, w: Witness, e: Event) returns (w': Witness)
    requires Invariant(net, w) && e.Deliver? && (e.keypair.Some? ==> e.keypair.value !in net.minted)
    requires e.index < |net.pool| && !Gone(net, e.index)
    requires WithinSkip(At(net, net.pool[e.index].to), net.pool[e.index].message.header, e.keypair)
    ensures Invariant(Apply(net, e), w') && w'.h.shared == w.h.shared
    ensures var packet := net.pool[e.index];
            Decrypted(At(net, packet.to), packet.message, e.keypair).1 == Success(Some(packet.text))
  {
    hide Matches;
    hide WithinSkip;
    hide Decrypted;
    hide TakenExact;
    hide Reaches;
    hide GrowsFor;
    hide InStep;
    hide Gone;
    var packet, t := net.pool[e.index], w.tags[e.index];
    var p := packet.to;
    var s, j, r := At(net, p), J(w, p), R(w, p);
    TagReaches(net, w, e.index);
    PooledIsTagged(net, w, e.index);
    ReachesReceiver(net, w, e.index);
    assert PeerMatches(net, w, p);
    var h', j', r' := UnreadOpens(w.h, j, r, w.taken, s, t, packet.text, e.keypair);
    OpeningGrows(net, w, p, h', j', e.keypair);
    w' := Moved(w, p, h', j', r', w.taken + {t});
    ReadingStaysExact(net, w, p, h', e.index, Apply(net, e));
    MovedHolds(net, w, p, Apply(net, e), h', j', r', w.taken + {t});
  }

  lemma ReachesReceiver(net: Net, w: Witness, i: nat)
    requires Invariant(net, w) && i < |net.pool|
    ensures ReceiverOf(w.tags[i].chain) == net.pool[i].to
    ensures w.tags[i].chain == J(w, net.pool[i].to) + 2 ==> |w.h.secrets| == J(w, net.pool[i].to) + 3
    ensures forall k :: 0 <= k < |w.h.secrets| ==> w.h.secrets[k] in net.minted
  {
    hide Matches;
    TagReaches(net, w, i);
  }

  /** A packet gone, or beyond the skip bound, changes nothing and yields nothing. */
  lemma IgnoredHolds(net: Net, w: Witness, e: Event)
    requires Invariant(net, w) && e.Deliver? && e.index < |net.pool|
    requires Gone(net, e.index) ||
             !WithinSkip(At(net, net.pool[e.index].to), net.pool[e.index].message.header, e.keypair)
    ensures Invariant(Apply(net, e), w)
    ensures var packet := net.pool[e.index];
            var (s', o) := Decrypted(At(net, packet.to), packet.message, e.keypair);
            && s' == At(net, packet.to)
            && !YieldsPlaintext(o)
            && (!Gone(net, e.index) ==> o.Failure?)
  {
    hide Matches;
    hide WithinSkip;
    hide Decrypted;
    hide TakenExact;
    hide Gone;
    var packet, t := net.pool[e.index], w.tags[e.index];
    var p := packet.to;
    TagReaches(net, w, e.index);
    PooledIsTagged(net, w, e.index);
    assert PeerMatches(net, w, p);
    if Gone(net, e.index) {
      ReplayFails(w.h, J(w, p), R(w, p), w.taken, At(net, p), t, packet.text, e.keypair);
    } else {
      BeyondSkipFails(w.h, J(w, p), R(w, p), w.taken, At(net, p), t, packet.text, e.keypair);
    }
    IdleHolds(net, w, Minted(net, e.keypair));
    assert Apply(net, e) == net.(minted := Minted(net, e.keypair));
  }

  lemma DeliverHolds(net: Net, w: Witness, e: Event) returns (w': Witness)
    requires Invariant(net, w) && e.Deliver? && (e.keypair.Some? ==> e.keypair.value !in net.minted)
    ensures Invariant(Apply(net, e), w') && w'.h.shared == w.h.shared
  {
    hide Invariant;
    hide Gone;
    w' := w;
    if e.index >= |net.pool| {
      IdleHolds(net, w, Minted(net, e.keypair));
    } else if !Gone(net, e.index)
              && WithinSkip(At(net, net.pool[e.index].to), net.pool[e.index].message.header, e.keypair) {
      w' := OpenHolds(net, w, e);
    } else {
      IgnoredHolds(net, w, e);
    }
  }

  // ----- forgeries -----

  /** Every key of a session comes from one secret. */
  ghost predicate Based(s: SessionState, base: Key) {
    && Base(s.root) == base
    && (s.recv.Some? ==> Base(s.recv.value) == base)
    && (forall id :: id in s.skipped ==> Base(s.skipped[id]) == base)
  }

  lemma {:induction false} ChainBases(h: History, i: nat)
    requires i < |h.secrets|
    ensures Base(Root(h, i)) == Base(h.shared) && Base(Chain(h, i)) == Base(h.shared)
  {
    if i > 0 {
      ChainBases(h, i - 1);
    }
  }

  lemma MatchesIsBased(h: History, j: int, r: nat, taken: set<Tag>, s: SessionState)
    requires Matches(h, j, r, taken, s)
    ensures Based(s, Base(h.shared))
  {
    ChainBases(h, if j + 1 < |h.secrets| then j + 1 else j);
    if j >= 0 {
      ChainBases(h, j);
      ChainAtBase(Chain(h, j), r);
    }
    forall id | id in s.skipped
      ensures Base(s.skipped[id]) == Base(h.shared)
    {
      assert Accounted(h, j, r, taken, id);
      var t :| Pending(h, j, r, taken, t) && IdOf(h, t) == id;
      assert Stores(h, t, s.skipped);
      ChainBases(h, t.chain);
      ChainAtBase(Chain(h, t.chain), t.n);
    }
  }

  lemma SkippingStaysBased(s: SessionState, until: nat, base: Key)
    requires Based(s, base) && SkippedTo(s, until).Success?
    ensures Based(SkippedTo(s, until).value, base)
  {
    if s.recvIndex <= until {
      var t := SkippedTo(s, until).value;
      ChainAtBase(s.recv.value, until - s.recvIndex);
      forall id | id in t.skipped
        ensures Base(t.skipped[id]) == base
      {
        StoreSkippedAt(s.skipped, s.recvRatchet.value, s.recv.value, s.recvIndex, until, id);
        if id.ratchetKey == s.recvRatchet.value && s.recvIndex <= id.n < until {
          ChainAtBase(s.recv.value, id.n - s.recvIndex);
        }
      }
    }
  }

  lemma PreparingStaysBased(s: SessionState, header: Header, keypair: Option<Secret>, base: Key)
    requires Based(s, base) && Prepared(s, header, keypair).Success?
    ensures Based(Prepared(s, header, keypair).value, base)
  {
    if s.recvRatchet != Some(header.ratchetKey) {
      if s.recv.Some? {
        SkippingStaysBased(s, header.pn, base);
      }
      SkippingStaysBased(Ratcheted(s, header, keypair).value, header.n, base);
    } else {
      SkippingStaysBased(s, header.n, base);
    }
  }

  /** A forgery opens under no key the session can try. */
  lemma ForgedYieldsNothing(s: SessionState, m: Message, keypair: Option<Secret>, shared: Key)
    requires Based(s, Base(shared)) && IsForged(m, shared)
    ensures !YieldsPlaintext(Decrypted(s, m, keypair).1)
  {
    hide SkippedTo;
    hide Ratcheted;
    hide Prepared;
    if HeaderId(m.header) !in s.skipped && Prepared(s, m.header, keypair).Success? {
      PreparingStaysBased(s, m.header, keypair, Base(shared));
    }
  }

  /** The stored key a forgery uses up is that of a pending tag, which is then taken. */
  lemma BurningStaysExact(net: Net, w: Witness, t: Tag, net': Net)
    requires Invariant(net, w) && t.chain < |w.h.secrets| == |w.h.sent| && t.n < w.h.sent[t.chain]
    requires net'.pool == net.pool && net'.read == net.read && net'.burnt == net.burnt + {IdOf(w.h, t)}
    ensures TakenExact(w.h, w.tags, w.taken + {t}, net')
  {
    hide Matches;
    hide InStep;
    var taken' := w.taken + {t};
    forall i | 0 <= i < |w.tags|
      ensures Gone(net', i) <==> w.tags[i] in taken'
    {
      PooledIsTagged(net, w, i);
      if IdOf(w.h, t) == IdOf(w.h, w.tags[i]) {
        IdsAreDistinct(w.h, t, w.tags[i]);
      }
    }
    forall id | id in net'.burnt
      ensures exists u :: BurntTag(w.h, taken', id, u)
    {
      if id == IdOf(w.h, t) {
        assert BurntTag(w.h, taken', id, t);
      } else {
        var u :| BurntTag(w.h, w.taken, id, u);
        assert BurntTag(w.h, taken', id, u);
      }
    }
  }

  lemma UnchangedGrows(net: Net, w: Witness, p: Party)
    requires Invariant(net, w)
    ensures GrowsFor(net, w, p, w.h)
  {
    hide Matches;
    hide PoolMatches;
  }

  lemma PendingUnder(h: History, j: int, r: nat, taken: set<Tag>, s: SessionState, id: SkippedId) returns (t: Tag)
    requires Matches(h, j, r, taken, s) && id in s.skipped
    ensures Sound(h) && Pending(h, j, r, taken, t) && IdOf(h, t) == id
  {
    assert Accounted(h, j, r, taken, id);
    t :| Pending(h, j, r, taken, t) && IdOf(h, t) == id;
  }

  /** Using up a stored key leaves the session matching, with the key's tag taken. */
  lemma BurnHolds(net: Net, w: Witness, p: Party, id: SkippedId, minted: set<Secret>) returns (w': Witness)
    requires Invariant(net, w) && id in At(net, p).skipped && net.minted <= minted
    ensures var s := At(net, p);
            Invariant(With(net, p, s.(skipped := s.skipped - {id})).(minted := minted, burnt := net.burnt + {id}), w')
    ensures w'.h == w.h
  {
    hide GrowsFor;
    hide TakenExact;
    hide Matches;
    hide PoolMatches;
    var s, j, r := At(net, p), J(w, p), R(w, p);
    assert PeerMatches(net, w, p);
    var t := PendingUnder(w.h, j, r, w.taken, s, id);
    StoredMatches(w.h, j, r, w.taken, s, t);
    PendingIsReceived(net, w, p, t);
    UnchangedGrows(net, w, p);
    var net' := With(net, p, s.(skipped := s.skipped - {id})).(minted := minted, burnt := net.burnt + {id});
    w' := Moved(w, p, w.h, j, r, w.taken + {t});
    BurningStaysExact(net, w, t, net');
    MovedHolds(net, w, p, net', w.h, j, r, w.taken + {t});
  }

  lemma PendingIsReceived(net: Net, w: Witness, p: Party, t: Tag)
    requires Invariant(net, w) && Pending(w.h, J(w, p), R(w, p), w.taken, t)
    ensures ReceiverOf(t.chain) == p && t.n < w.h.sent[t.chain]
  {
    hide SkippedExact;
    hide PoolMatches;
    assert PeerMatches(net, w, p);
  }

  /** A forgery yields nothing and changes nothing but the one stored key under its header. */
  lemma ForgeHolds(net: Net, w: Witness, e: Event) returns (w': Witness)
    requires Invariant(net, w) && e.Forge? && IsForged(e.message, w.h.shared)
    ensures Invariant(Apply(net, e), w') && w'.h.shared == w.h.shared
    ensures !YieldsPlaintext(Decrypted(At(net, e.to), e.message, e.keypair).1)
  {
    hide Matches;
    hide PoolMatches;
    hide Decrypted;
    hide Based;
    hide IsForged;
    hide InStep;
    var s, id := At(net, e.to), HeaderId(e.message.header);
    assert PeerMatches(net, w, e.to);
    MatchesIsBased(w.h, J(w, e.to), R(w, e.to), w.taken, s);
    ForgedYieldsNothing(s, e.message, e.keypair, w.h.shared);
    FailedDecryptKeepsSession(s, e.message, e.keypair);
    if id in s.skipped {
      w' := BurnHolds(net, w, e.to, id, Minted(net, e.keypair));
    } else {
      w' := w;
      assert s.skipped - {id} == s.skipped;
      IdleHolds(net, w, Minted(net, e.keypair));
      assert Apply(net, e) == net.(minted := Minted(net, e.keypair));
    }
  }

  predicate OnlyForgeries(events: seq<Event>, shared: Key) {
    forall i :: 0 <= i < |events| && events[i].Forge? ==> IsForged(events[i].message, shared)
  }

  lemma {:induction false} RunHolds(net: Net, w: Witness, events: seq<Event>) returns (w': Witness)
    requires Invariant(net, w) && Generated(net, events) && OnlyForgeries(events, w.h.shared)
    ensures Invariant(Run(net, events), w') && w'.h.shared == w.h.shared
    decreases |events|
  {
    hide Invariant;
    hide Apply;
    hide IsForged;
    w' := w;
    if events != [] {
      if events[0].Post? {
        w' := PostHolds(net, w, events[0]);
      } else if events[0].Deliver? {
        w' := DeliverHolds(net, w, events[0]);
      } else {
        w' := ForgeHolds(net, w, events[0]);
      }
      w' := RunHolds(Apply(net, events[0]), w', events[1..]);
    }
  }

  // ----- the main results -----

  /** The two constructors' arguments: the shared secret, the sender's prekey, and both first ratchet secrets. */
  datatype Setup = Setup(shared: Key, preKey: Option<PublicKey>, a: Secret, b: Secret)

  function Begin(setup: Setup): Net {
    Start(setup.shared, setup.preKey, setup.a, setup.b)
  }

  predicate Possible(setup: Setup, events: seq<Event>) {
    && Distinct(setup.preKey, setup.a, setup.b)
    && Generated(Begin(setup), events)
    && OnlyForgeries(events, setup.shared)
  }

  lemma AlwaysHolds(setup: Setup, events: seq<Event>) returns (w: Witness)
    requires Possible(setup, events)
    ensures Invariant(Run(Begin(setup), events), w) && w.h.shared == setup.shared
  {
    StartHolds(setup.shared, setup.preKey, setup.a, setup.b);
    hide Invariant;
    w := RunHolds(Begin(setup), Witness(History(setup.shared, [setup.a], [0]), -1, 0, 0, 0, [], {}), events);
  }

  /**
   In every run, forgeries included, a genuine message that has not been read yet yields its own text exactly
   when the receiver's skip check passes and no forgery has used its id while its key was stored.  When it does
   not, the session is unchanged; and unless it was burnt it fails, so that it can still be read later.
   */
  lemma FirstArrivalYields(setup: Setup, events: seq<Event>, i: nat, keypair: Option<Secret>)
    requires Possible(setup, events)
    requires var net := Run(Begin(setup), events);
             i < |net.pool| && i !in net.read && (keypair.Some? ==> keypair.value !in net.minted)
    ensures var net := Run(Begin(setup), events);
            var packet := net.pool[i];
            var header := packet.message.header;
            var s := At(net, packet.to);
            var (s', o) := Decrypted(s, packet.message, keypair);
            var burnt := HeaderId(header) in net.burnt;
            && (o == Success(Some(packet.text)) <==> WithinSkip(s, header, keypair) && !burnt)
            && (!WithinSkip(s, header, keypair) || burnt ==> !YieldsPlaintext(o) && s' == s)
            && (!WithinSkip(s, header, keypair) && !burnt ==> o.Failure?)
  {
    hide Invariant;
    hide Run;
    hide Decrypted;
    hide WithinSkip;
    var net := Run(Begin(setup), events);
    var w := AlwaysHolds(setup, events);
    if WithinSkip(At(net, net.pool[i].to), net.pool[i].message.header, keypair) && !Gone(net, i) {
      var _ := OpenHolds(net, w, Deliver(i, keypair));
    } else {
      IgnoredHolds(net, w, Deliver(i, keypair));
    }
  }

  /** In every run, a forgery yields nothing and at most uses up the one key stored under its own header. */
  lemma ForgeryYieldsNothing(setup: Setup, events: seq<Event>, to: Party, m: Message, keypair: Option<Secret>)
    requires Possible(setup, events) && IsForged(m, setup.shared)
    ensures var s := At(Run(Begin(setup), events), to);
            var (s', o) := Decrypted(s, m, keypair);
            !YieldsPlaintext(o) && s' == s.(skipped := s.skipped - {HeaderId(m.header)})
  {
    hide Invariant;
    hide Run;
    hide Decrypted;
    hide IsForged;
    var w := AlwaysHolds(setup, events);
    var _ := ForgeHolds(Run(Begin(setup), events), w, Forge(to, m, keypair));
    FailedDecryptKeepsSession(At(Run(Begin(setup), events), to), m, keypair);
  }

  /** In every run, a message that has been read yields nothing again and leaves the session as it is. */
  lemma ReplayYieldsNothing(setup: Setup, events: seq<Event>, i: nat, keypair: Option<Secret>)
    requires Possible(setup, events)
    requires i in Run(Begin(setup), events).read && i < |Run(Begin(setup), events).pool|
    ensures var net := Run(Begin(setup), events);
            var s := At(net, net.pool[i].to);
            var (s', o) := Decrypted(s, net.pool[i].message, keypair);
            !YieldsPlaintext(o) && s' == s
  {
    hide Invariant;
    hide Run;
    hide Decrypted;
    var w := AlwaysHolds(setup, events);
    IgnoredHolds(Run(Begin(setup), events), w, Deliver(i, keypair));
  }

  lemma {:induction false} RunKeeps(net: Net, events: seq<Event>)
    ensures net.pool <= Run(net, events).pool && net.burnt <= Run(net, events).burnt
    decreases |events|
  {
    hide Decrypted;
    hide Encrypted;
    if events != [] {
      RunKeeps(Apply(net, events[0]), events[1..]);
    }
  }

  lemma {:induction false} RunInTwo(net: Net, a: seq<Event>, b: seq<Event>)
    ensures Run(net, a + b) == Run(Run(net, a), b)
    decreases |a|
  {
    hide Apply;
    if a == [] {
      assert a + b == b;
    } else {
      assert (a + b)[1..] == a[1..] + b;
      RunInTwo(Apply(net, a[0]), a[1..], b);
    }
  }

  /** A forgery under the header of a message whose key waits in the skipped map makes it unreadable for good. */
  lemma ForgeryUsesUpKey(setup: Setup, events: seq<Event>, forge: Event, more: seq<Event>, i: nat,
                         keypair: Option<Secret>)
    requires forge.Forge? && Possible(setup, events + [forge] + more)
    requires var net := Run(Begin(setup), events);
             && i < |net.pool| && forge.to == net.pool[i].to
             && HeaderId(forge.message.header) == HeaderId(net.pool[i].message.header)
             && HeaderId(forge.message.header) in At(net, forge.to).skipped
    requires keypair.Some? ==> keypair.value !in Run(Begin(setup), events + [forge] + more).minted
    ensures var net := Run(Begin(setup), events + [forge] + more);
            i < |net.pool| && !YieldsPlaintext(Decrypted(At(net, forge.to), net.pool[i].message, keypair).1)
  {
    hide Possible;
    hide WithinSkip;
    hide Decrypted;
    var net, all := Run(Begin(setup), events), events + [forge] + more;
    assert all == events + ([forge] + more) && ([forge] + more)[1..] == more;
    RunInTwo(Begin(setup), events, [forge] + more);
    RunKeeps(Apply(net, forge), more);
    if i in Run(Begin(setup), all).read {
      ReplayYieldsNothing(setup, all, i, keypair);
    } else {
      FirstArrivalYields(setup, all, i, keypair);
    }
  }

  /** Party p has read a message with this header. */
  ghost predicate ReadBy(net: Net, p: Party, id: SkippedId) {
    exists i :: i in net.read && i < |net.pool| && net.pool[i].to == p &&
                SkippedId(net.pool[i].message.header.ratchetKey, net.pool[i].message.header.n) == id
  }

  lemma TakenIsGone(net: Net, w: Witness, p: Party, t: Tag)
    requires Invariant(net, w) && t.chain < |w.h.secrets| && ReceiverOf(t.chain) == p
    ensures t in w.taken <==> ReadBy(net, p, IdOf(w.h, t)) || IdOf(w.h, t) in net.burnt
  {
    hide Matches;
    hide InStep;
    hide MessageOf;
    var id := IdOf(w.h, t);
    if t in w.taken && id !in net.burnt {
      var i :| 0 <= i < |w.tags| && w.tags[i] == t;
      PooledIsTagged(net, w, i);
      TagReaches(net, w, i);
      assert i in net.read;
    }
    if ReadBy(net, p, id) {
      var i :| i in net.read && i < |net.pool| && net.pool[i].to == p &&
               SkippedId(net.pool[i].message.header.ratchetKey, net.pool[i].message.header.n) == id;
      PooledIsTagged(net, w, i);
      IdsAreDistinct(w.h, t, w.tags[i]);
    }
    if id in net.burnt {
      var u :| BurntTag(w.h, w.taken, id, u);
      IdsAreDistinct(w.h, t, u);
    }
  }

  /** The skipped map answers for one index of the current receive chain. */
  ghost predicate IndexExact(net: Net, p: Party, base: Key, key: PublicKey, n: nat) {
    var s, id := At(net, p), SkippedId(key, n);
    && (id in s.skipped <==> n < s.recvIndex && !ReadBy(net, p, id) && id !in net.burnt)
    && (id in s.skipped ==> s.skipped[id] == MessageKey(ChainAt(base, n)))
  }

  lemma IndexIsExact(net: Net, w: Witness, p: Party, n: nat)
    requires Invariant(net, w) && 0 <= J(w, p) < |w.h.secrets|
    ensures IndexExact(net, p, Chain(w.h, J(w, p)), Point(w.h.secrets[J(w, p)]), n)
  {
    var s, j, r, t := At(net, p), J(w, p), R(w, p), Tag(J(w, p), n);
    assert PeerMatches(net, w, p);
    TakenIsGone(net, w, p, t);
    hide ReadBy;
    if Pending(w.h, j, r, w.taken, t) {
      assert Stores(w.h, t, s.skipped);
    } else {
      NotPendingNotStored(w.h, j, r, w.taken, s, t);
    }
  }

  /**
   In every run, the receive chain key is the recvIndex-th step of one chain; under the current
   peer key the skipped map holds exactly the indices below recvIndex neither read nor burnt, each
   with its own message key of that chain; and a peer still sending under that key stands
   sendIndex steps along the same chain.
   */
  lemma ReceiveChainIsExact(setup: Setup, events: seq<Event>, p: Party) returns (base: Key)
    requires Possible(setup, events) && At(Run(Begin(setup), events), p).recv.Some?
    ensures var net := Run(Begin(setup), events);
            var s, q := At(net, p), At(net, Other(p));
            && s.recv == Some(ChainAt(base, s.recvIndex))
            && s.recvRatchet.Some?
            && (forall n: nat :: IndexExact(net, p, base, s.recvRatchet.value, n))
            && (q.send.Some? && Point(q.sendSecret) == s.recvRatchet.value ==>
                  s.recvIndex <= q.sendIndex && q.send == Some(ChainAt(base, q.sendIndex)))
  {
    hide SkippedExact;
    hide TakenBelow;
    hide PoolMatches;
    hide IndexExact;
    hide Possible;
    hide Run;
    var net := Run(Begin(setup), events);
    var w := AlwaysHolds(setup, events);
    assert PeerMatches(net, w, p) && PeerMatches(net, w, Other(p));
    base := Chain(w.h, J(w, p));
    forall n: nat
      ensures IndexExact(net, p, base, At(net, p).recvRatchet.value, n)
    {
      IndexIsExact(net, w, p, n);
    }
  }

  /** In every run, the two roots are equal, or one is a single ratchet step ahead of the other. */
  lemma RootsStayTogether(setup: Setup, events: seq<Event>)
    requires Possible(setup, events)
    ensures var net := Run(Begin(setup), events);
            var i, r := net.initiator, net.responder;
            var dh := Agreement(i.sendSecret, r.sendSecret);
            i.root == r.root || i.root == RootFrom(r.root, dh) || r.root == RootFrom(i.root, dh)
  {
    hide SkippedExact;
    hide TakenBelow;
    hide PoolMatches;
    hide Possible;
    hide Run;
    var w := AlwaysHolds(setup, events);
    assert PeerMatches(Run(Begin(setup), events), w, Initiator);
    assert PeerMatches(Run(Begin(setup), events), w, Responder);
  }
}
