/**
 A conversation as an account lives it: the session with one peer in the cache and in the store, followed through
 a run of the two-party protocol (clients/windows/src/net.rs:783-787, 1032-1036 and 1558-1622).

 Messages are received through the cache, which then overwrites the store; replies are sent from the store and do
 not reach the cache.  The cache lasts as long as one realtime connection (net.rs:631): a restart stands for its end,
 whether the client reconnects or is started anew.
 */
module Conversation {
  import opened Wrappers
  import opened Keys
  import opened Ratchet
  import opened RatchetPair
  import opened FirstContact

  /** A message as it arrives, with or without the handshake part. */
  function Wrapped(m: Message, x3dh: Option<X3dhParams>): Data {
    Parsed(Payload(m.header, m.ciphertext, x3dh))
  }

  /** The session the next message of the peer meets: the cached one, else the stored one. */
  ghost predicate Meets(acc: Account, peer: PublicKey, s: SessionState) {
    if peer in acc.sessions then acc.sessions[peer] == s else peer in acc.stored && acc.stored[peer] == s
  }

  /** The account with this session both cached and stored. */
  function Holding(acc: Account, peer: PublicKey, s: SessionState): Account {
    acc.(sessions := acc.sessions[peer := s], stored := acc.stored[peer := s])
  }

  // ----- one message -----

  /**
   In every run, forgeries included: an account whose session is the run's reads a genuine message that is unread,
   unburnt and within the skip bound, then holds the run's next session, and nothing else of it changes.
   */
  lemma MessageIsReceived(setup: Setup, events: seq<Event>, p: Party, acc: Account, peer: PublicKey, i: nat,
                          x3dh: Option<X3dhParams>, pairs: KeyPairs)
    requires Possible(setup, events)
    requires var net := Run(Begin(setup), events);
             && i < |net.pool| && net.pool[i].to == p && !Gone(net, i)
             && (pairs.existing.Some? ==> pairs.existing.value !in net.minted)
             && WithinSkip(At(net, p), net.pool[i].message.header, pairs.existing)
             && Meets(acc, peer, At(net, p))
    ensures var packet := Run(Begin(setup), events).pool[i];
            var next := Run(Begin(setup), events + [Deliver(i, pairs.existing)]);
            Receive(acc, peer, Wrapped(packet.message, x3dh), pairs)
              == (Holding(acc, peer, At(next, p)), Success(Some(packet.text)))
  {
    hide Possible;
    hide Decrypted;
    hide WithinSkip;
    var net, e := Run(Begin(setup), events), Deliver(i, pairs.existing);
    FirstArrivalYields(setup, events, i, pairs.existing);
    OneMoreEvent(Begin(setup), events, e);
    hide Run;
    var m := net.pool[i].message;
    assert Message(m.header, m.ciphertext) == m;
  }

  /** Any other genuine message yields nothing and leaves the account as it is. */
  lemma MessageIsIgnored(setup: Setup, events: seq<Event>, p: Party, acc: Account, peer: PublicKey, i: nat,
                         pairs: KeyPairs)
    requires Possible(setup, events)
    requires var net := Run(Begin(setup), events);
             && i < |net.pool| && net.pool[i].to == p
             && (pairs.existing.Some? ==> pairs.existing.value !in net.minted)
             && (Gone(net, i) || !WithinSkip(At(net, p), net.pool[i].message.header, pairs.existing))
             && Meets(acc, peer, At(net, p))
    ensures var net := Run(Begin(setup), events);
            && Receive(acc, peer, Wrapped(net.pool[i].message, None), pairs) == (acc, Success(None))
            && At(Run(Begin(setup), events + [Deliver(i, pairs.existing)]), p) == At(net, p)
  {
    hide Possible;
    hide Decrypted;
    hide WithinSkip;
    var net, e := Run(Begin(setup), events), Deliver(i, pairs.existing);
    if i in net.read {
      ReplayYieldsNothing(setup, events, i, pairs.existing);
    } else {
      FirstArrivalYields(setup, events, i, pairs.existing);
    }
    OneMoreEvent(Begin(setup), events, e);
    hide Run;
    var m := net.pool[i].message;
    assert Message(m.header, m.ciphertext) == m;
    if peer in acc.sessions {
      assert acc.sessions[peer := At(net, p)] == acc.sessions;
    }
  }

  lemma OneMoreEvent(net: Net, events: seq<Event>, e: Event)
    ensures Run(net, events + [e]) == Apply(Run(net, events), e)
  {
    hide Apply;
    RunInTwo(net, events, [e]);
    assert [e][1..] == [];
  }

  // ----- whole conversations -----

  /** What happens to one end of a conversation: an event of the protocol, or a restart of the client. */
  datatype Step = Network(event: Event) | Restarting

  function EventsOf(steps: seq<Step>): seq<Event> {
    if steps == [] then []
    else EventsOf(steps[..|steps| - 1]) + EventOf(steps[|steps| - 1])
  }

  function EventOf(step: Step): seq<Event> {
    if step.Network? then [step.event] else []
  }

  /** One step of party p's account: it receives what comes for it, sends its own replies, and may be restarted. */
  function Lived(acc: Account, p: Party, peer: PublicKey, net: Net, step: Step): Account {
    match step
    case Restarting => Does(acc, Restart)
    case Network(Deliver(i, keypair)) =>
      if i < |net.pool| && net.pool[i].to == p
      then Receive(acc, peer, Wrapped(net.pool[i].message, None), KeyPairs(keypair, None, None)).0 else acc
    case Network(Forge(to, m, keypair)) =>
      if to == p then Receive(acc, peer, Wrapped(m, None), KeyPairs(keypair, None, None)).0 else acc
    case Network(Post(from, text, keypair, sealing)) =>
      if from == p then Does(acc, Outgoing(peer, text, keypair, sealing)) else acc
  }

  /**
   What the account can check before a step: a restart finds the cached session stored; a reply is sealed, and sent
   while no session with the peer is cached, or not at all; a forgery that uses up a key meets a cached session.
   */
  predicate IsTimely(acc: Account, p: Party, peer: PublicKey, step: Step) {
    match step
    case Restarting => peer in acc.sessions ==> peer in acc.stored && acc.stored[peer] == acc.sessions[peer]
    case Network(Deliver(_, _)) => true
    case Network(Forge(to, m, _)) =>
      to == p && peer !in acc.sessions && peer in acc.stored ==> HeaderId(m.header) !in acc.stored[peer].skipped
    case Network(Post(from, _, keypair, sealing)) =>
      from == p && peer in acc.stored && EnsuredSendChain(acc.stored[peer], keypair).Success? ==>
        sealing == SealOk && peer !in acc.sessions
  }

  /** What the stored session is when the account meets another: the run's as well, whenever a reply is sent. */
  ghost predicate RepliesAreCurrent(acc: Account, p: Party, peer: PublicKey, net: Net, step: Step) {
    step.Network? && step.event.Post? && step.event.from == p ==> peer in acc.stored && acc.stored[peer] == At(net, p)
  }

  lemma RestartStays(acc: Account, p: Party, peer: PublicKey, s: SessionState)
    requires Meets(acc, peer, s)
    ensures Meets(Does(acc, Restart), peer, s) <==> IsTimely(acc, p, peer, Restarting)
  {
  }

  lemma ReplyStays(acc: Account, p: Party, peer: PublicKey, net: Net, e: Event)
    requires e.Post? && e.from == p && Meets(acc, peer, At(net, p))
    requires peer in acc.stored && acc.stored[peer] == At(net, p)
    ensures Meets(Lived(acc, p, peer, net, Network(e)), peer, At(Apply(net, e), p))
       <==> IsTimely(acc, p, peer, Network(e))
  {
    hide NaclBoxBefore;
    hide KdfRoot;
  }

  lemma ForgeryStays(setup: Setup, events: seq<Event>, acc: Account, p: Party, peer: PublicKey, e: Event)
    requires Possible(setup, events) && e.Forge? && e.to == p && IsForged(e.message, setup.shared)
    requires var net := Run(Begin(setup), events); Meets(acc, peer, At(net, p))
    ensures var net := Run(Begin(setup), events);
            Meets(Lived(acc, p, peer, net, Network(e)), peer, At(Apply(net, e), p))
            <==> IsTimely(acc, p, peer, Network(e))
  {
    hide Possible;
    hide Decrypted;
    hide IsForged;
    var net := Run(Begin(setup), events);
    ForgeryYieldsNothing(setup, events, p, e.message, e.keypair);
    hide Run;
    var m := e.message;
    assert Message(m.header, m.ciphertext) == m;
    var id, s := HeaderId(m.header), At(net, p);
    assert id in s.skipped ==> id !in (s.skipped - {id});
    assert id !in s.skipped ==> s.skipped - {id} == s.skipped;
  }

  lemma DeliveryStays(setup: Setup, events: seq<Event>, acc: Account, p: Party, peer: PublicKey, e: Event)
    requires Possible(setup, events) && e.Deliver?
    requires var net := Run(Begin(setup), events);
             && Meets(acc, peer, At(net, p)) && (e.keypair.Some? ==> e.keypair.value !in net.minted)
    ensures var net := Run(Begin(setup), events);
            Meets(Lived(acc, p, peer, net, Network(e)), peer, At(Apply(net, e), p))
  {
    hide Possible;
    hide Decrypted;
    hide WithinSkip;
    hide Gone;
    var net, pairs := Run(Begin(setup), events), KeyPairs(e.keypair, None, None);
    OneMoreEvent(Begin(setup), events, e);
    if e.index < |net.pool| && net.pool[e.index].to == p {
      if !Gone(net, e.index) && WithinSkip(At(net, p), net.pool[e.index].message.header, e.keypair) {
        MessageIsReceived(setup, events, p, acc, peer, e.index, None, pairs);
      } else {
        MessageIsIgnored(setup, events, p, acc, peer, e.index, pairs);
      }
    }
  }

  /** An account in touch with the run stays so exactly when the step is timely. */
  lemma StepStaysExactlyWhen(setup: Setup, events: seq<Event>, acc: Account, p: Party, peer: PublicKey, step: Step)
    requires Possible(setup, events + EventOf(step)) && Possible(setup, events)
    requires var net := Run(Begin(setup), events);
             && Meets(acc, peer, At(net, p)) && RepliesAreCurrent(acc, p, peer, net, step)
             && (step.Network? && step.event.keypair.Some? ==> step.event.keypair.value !in net.minted)
    ensures var net := Run(Begin(setup), events);
            Meets(Lived(acc, p, peer, net, step), peer, At(Run(Begin(setup), events + EventOf(step)), p))
            <==> IsTimely(acc, p, peer, step)
  {
    hide Meets;
    hide Decrypted;
    hide Encrypted;
    hide Generated;
    var net := Run(Begin(setup), events);
    assert events + [] == events;
    if step.Restarting? {
      RestartStays(acc, p, peer, At(net, p));
    } else {
      var e := step.event;
      assert (events + [e])[|events|] == e;
      OneMoreEvent(Begin(setup), events, e);
      if e.Deliver? {
        DeliveryStays(setup, events, acc, p, peer, e);
      } else if e.Forge? && e.to == p {
        ForgeryStays(setup, events, acc, p, peer, e);
      } else if e.Post? && e.from == p {
        ReplyStays(acc, p, peer, net, e);
      }
    }
  }

  // ----- runs -----

  /** Timely, and replies go out only while no session with the peer is cached. */
  predicate IsOrderly(acc: Account, p: Party, peer: PublicKey, step: Step) {
    && IsTimely(acc, p, peer, step)
    && (step.Network? && step.event.Post? && step.event.from == p ==> peer !in acc.sessions)
  }

  /** The account after some steps, the protocol run having begun with the events of `opening`. */
  function AccountAfter(acc: Account, p: Party, peer: PublicKey, setup: Setup, opening: seq<Event>, steps: seq<Step>)
    : Account
  {
    if steps == [] then acc
    else
      var before := steps[..|steps| - 1];
      Lived(AccountAfter(acc, p, peer, setup, opening, before), p, peer,
            Run(Begin(setup), opening + EventsOf(before)), steps[|steps| - 1])
  }

  predicate AllOrderly(acc: Account, p: Party, peer: PublicKey, setup: Setup, opening: seq<Event>, steps: seq<Step>) {
    steps == [] ||
    (var before := steps[..|steps| - 1];
     && AllOrderly(acc, p, peer, setup, opening, before)
     && IsOrderly(AccountAfter(acc, p, peer, setup, opening, before), p, peer, steps[|steps| - 1]))
  }

  lemma {:induction false} GeneratedSplits(net: Net, a: seq<Event>, b: seq<Event>)
    requires Generated(net, a + b)
    ensures Generated(net, a) && Generated(Run(net, a), b)
    decreases |a|
  {
    hide Apply;
    if a == [] {
      assert a + b == b;
    } else {
      assert (a + b)[0] == a[0] && (a + b)[1..] == a[1..] + b;
      GeneratedSplits(Apply(net, a[0]), a[1..], b);
    }
  }

  lemma PossibleSplits(setup: Setup, a: seq<Event>, b: seq<Event>)
    requires Possible(setup, a + b)
    ensures Possible(setup, a) && Generated(Run(Begin(setup), a), b)
  {
    hide IsForged;
    GeneratedSplits(Begin(setup), a, b);
    forall i | 0 <= i < |a| && a[i].Forge?
      ensures IsForged(a[i].message, setup.shared)
    {
      assert (a + b)[i] == a[i];
    }
  }

  lemma OrderlyStepStays(setup: Setup, events: seq<Event>, acc: Account, p: Party, peer: PublicKey, step: Step)
    requires Possible(setup, events + EventOf(step)) && IsOrderly(acc, p, peer, step)
    requires Meets(acc, peer, At(Run(Begin(setup), events), p))
    ensures Meets(Lived(acc, p, peer, Run(Begin(setup), events), step), peer,
                  At(Run(Begin(setup), events + EventOf(step)), p))
  {
    hide Possible;
    hide Run;
    hide Lived;
    PossibleSplits(setup, events, EventOf(step));
    StepStaysExactlyWhen(setup, events, acc, p, peer, step);
  }

  /** Through any orderly steps the session the account meets is the run's. */
  lemma {:induction false} StaysInTouch(acc: Account, p: Party, peer: PublicKey, setup: Setup, opening: seq<Event>,
                                        steps: seq<Step>)
    requires Possible(setup, opening + EventsOf(steps)) && AllOrderly(acc, p, peer, setup, opening, steps)
    requires Meets(acc, peer, At(Run(Begin(setup), opening), p))
    ensures Meets(AccountAfter(acc, p, peer, setup, opening, steps), peer,
                  At(Run(Begin(setup), opening + EventsOf(steps)), p))
    decreases |steps|
  {
    hide Possible;
    hide Run;
    hide Lived;
    hide IsOrderly;
    hide Meets;
    if steps == [] {
      assert opening + [] == opening;
    } else {
      var before, step := steps[..|steps| - 1], steps[|steps| - 1];
      var events := opening + EventsOf(before);
      assert opening + EventsOf(steps) == events + EventOf(step);
      PossibleSplits(setup, events, EventOf(step));
      StaysInTouch(acc, p, peer, setup, opening, before);
      OrderlyStepStays(setup, events, AccountAfter(acc, p, peer, setup, opening, before), p, peer, step);
    }
  }

  /** An account that starts a session of its own, with none cached, meets the run from its beginning. */
  lemma InitiatorMeets(acc: Account, peer: PublicKey, setup: Setup)
    requires peer !in acc.sessions
    ensures Meets(Does(acc, Initiating(peer, setup.shared, setup.preKey, setup.a)), peer, Begin(setup).initiator)
  {
  }

  // ----- after a first message -----

  /** The protocol run of a conversation that a first message opened. */
  function SetupOf(f: First, responder: Secret): Setup {
    Setup(SharedOf(f), PublicPreKey(f), f.own, responder)
  }

  function Opening(f: First): seq<Event> {
    [Post(Initiator, f.text, None, SealOk), Deliver(0, None)]
  }

  lemma FirstMessageMeets(f: First, past: seq<Activity>, pairs: KeyPairs)
    requires Awaits(f, past) && pairs.responder.Some?
    ensures var acc := Receive(DoesAll(NewAccount(f.b), past), Point(f.a), Parsed(Sent(f).0), pairs).0;
            var s := At(Run(Begin(SetupOf(f, pairs.responder.value)), Opening(f)), Responder);
            acc == Holding(acc, Point(f.a), s) && Meets(acc, Point(f.a), s)
  {
    hide Awaits;
    hide DoesAll;
    hide Receive;
    hide Run;
    hide SharedOf;
    hide Sent;
    FirstMessageArrives(f, past, pairs);
  }

  /**
   Every message after the first: through any past, a first message that arrives, and any orderly steps after it, a
   genuine message that is unread, unburnt and within the skip bound yields its own text to the account; its session,
   cached and stored, is then the run's, and nothing else of the account changes.
   */
  lemma LaterMessagesArrive(f: First, past: seq<Activity>, first: KeyPairs, steps: seq<Step>, i: nat, pairs: KeyPairs)
    requires Awaits(f, past) && first.responder.Some?
    requires Possible(SetupOf(f, first.responder.value), Opening(f) + EventsOf(steps))
    requires var acc := Receive(DoesAll(NewAccount(f.b), past), Point(f.a), Parsed(Sent(f).0), first).0;
             AllOrderly(acc, Responder, Point(f.a), SetupOf(f, first.responder.value), Opening(f), steps)
    requires var net := Run(Begin(SetupOf(f, first.responder.value)), Opening(f) + EventsOf(steps));
             && i < |net.pool| && net.pool[i].to == Responder && !Gone(net, i)
             && (pairs.existing.Some? ==> pairs.existing.value !in net.minted)
             && WithinSkip(net.responder, net.pool[i].message.header, pairs.existing)
    ensures var setup, peer := SetupOf(f, first.responder.value), Point(f.a);
            var acc := AccountAfter(Receive(DoesAll(NewAccount(f.b), past), peer, Parsed(Sent(f).0), first).0,
                                    Responder, peer, setup, Opening(f), steps);
            var packet := Run(Begin(setup), Opening(f) + EventsOf(steps)).pool[i];
            var next := Run(Begin(setup), Opening(f) + EventsOf(steps) + [Deliver(i, pairs.existing)]);
            Receive(acc, peer, Wrapped(packet.message, None), pairs)
              == (Holding(acc, peer, next.responder), Success(Some(packet.text)))
  {
    hide Awaits;
    hide DoesAll;
    hide Receive;
    hide Run;
    hide SharedOf;
    hide Sent;
    hide Possible;
    hide AllOrderly;
    hide AccountAfter;
    hide EventsOf;
    hide WithinSkip;
    hide Gone;
    hide Meets;
    var setup, peer := SetupOf(f, first.responder.value), Point(f.a);
    var acc := Receive(DoesAll(NewAccount(f.b), past), peer, Parsed(Sent(f).0), first).0;
    FirstMessageMeets(f, past, first);
    StaysInTouch(acc, Responder, peer, setup, Opening(f), steps);
    MessageIsReceived(setup, Opening(f) + EventsOf(steps), Responder,
                      AccountAfter(acc, Responder, peer, setup, Opening(f), steps), peer, i, None, pairs);
  }

  // ----- replies sent while the session is cached -----

  /** The responder replies, the initiator reads the reply and answers it. */
  function Exchange(f: First, reply: string, k: Secret, k': Secret, answer: string): seq<Event> {
    Opening(f) + [Post(Responder, reply, Some(k), SealOk)] + [Deliver(1, Some(k'))]
    + [Post(Initiator, answer, None, SealOk)]
  }

  /** The responder's session once it has replied, and the initiator's once it has read the reply. */
  function Replied(f: First, b0: Secret, k: Secret): SessionState {
    var shared, dh := SharedOf(f), Agreement(f.own, k);
    Reader(f, b0).(root := RootFrom(shared, dh), send := Some(NextChain(ChainFrom(shared, dh))), sendSecret := k,
                   prevSend := 0, sendIndex := 1)
  }

  function AnswerHeader(k': Secret): Header {
    Header(Point(k'), 0, 1)
  }

  function AnswerChain(f: First, k: Secret, k': Secret): Key {
    ChainFrom(RootFrom(SharedOf(f), Agreement(f.own, k)), Agreement(k, k'))
  }

  function AnswerMessage(f: First, k: Secret, k': Secret, answer: string): Message {
    Message(AnswerHeader(k'), Sealed(MessageKey(AnswerChain(f, k, k')), Envelope(AnswerHeader(k'), answer)))
  }

  /** The initiator's session once it has sent the first message. */
  function Opener(f: First): SessionState {
    SenderState(SharedOf(f), PublicPreKey(f), f.own).(send := Some(NextChain(SharedOf(f))), sendIndex := 1)
  }

  lemma RunNothing(net: Net)
    ensures Run(net, []) == net
  {
  }

  lemma OpeningNet(f: First, b0: Secret)
    ensures var net := Run(Begin(SetupOf(f, b0)), Opening(f));
            && net.responder == Reader(f, b0) && net.initiator == Opener(f)
            && |net.pool| == 1 && net.read == {0} && net.burnt == {}
            && f.own in net.minted && b0 in net.minted && (f.preKey.Some? ==> f.preKey.value in net.minted)
  {
    var start, post, deliver := Begin(SetupOf(f, b0)), Post(Initiator, f.text, None, SealOk), Deliver(0, None);
    RunNothing(start);
    OneMoreEvent(start, [], post);
    OneMoreEvent(start, [post], deliver);
    assert [] + [post] == [post] && [post] + [deliver] == Opening(f);
    hide Run;
    hide SharedOf;
  }

  lemma ReplyNet(f: First, b0: Secret, reply: string, k: Secret)
    ensures var net := Apply(Run(Begin(SetupOf(f, b0)), Opening(f)), Post(Responder, reply, Some(k), SealOk));
            var header := Header(Point(k), 0, 0);
            && net.responder == Replied(f, b0, k) && net.initiator == Opener(f) && net.read == {0} && net.burnt == {}
            && |net.pool| == 2
            && net.pool[1] == Packet(Initiator,
                                     Message(header, Sealed(MessageKey(ChainFrom(SharedOf(f), Agreement(f.own, k))),
                                                            Envelope(header, reply))), reply)
  {
    OpeningNet(f, b0);
    hide SharedOf;
    hide Run;
    hide Sent;
  }

  /** The initiator reads the reply and derives the chain of its answer. */
  lemma ReplyIsRead(f: First, reply: string, k: Secret, k': Secret)
    requires PublicPreKey(f) != Some(Point(k))
    ensures var header := Header(Point(k), 0, 0);
            var m := Message(header, Sealed(MessageKey(ChainFrom(SharedOf(f), Agreement(f.own, k))),
                                            Envelope(header, reply)));
            var (s, o) := Decrypted(Opener(f), m, Some(k'));
            && o == Success(Some(reply))
            && s.send == Some(AnswerChain(f, k, k')) && s.sendSecret == k' && s.sendIndex == 0 && s.prevSend == 1
  {
    hide SharedOf;
  }

  lemma AnswerNet(f: First, b0: Secret, reply: string, k: Secret, k': Secret, answer: string)
    requires PublicPreKey(f) != Some(Point(k))
    ensures var net := Run(Begin(SetupOf(f, b0)), Exchange(f, reply, k, k', answer));
            && net.responder == Replied(f, b0, k) && net.read == {0, 1} && net.burnt == {}
            && |net.pool| == 3
            && net.pool[2] == Packet(Responder, AnswerMessage(f, k, k', answer), answer)
  {
    var start := Begin(SetupOf(f, b0));
    var r, d, a := Post(Responder, reply, Some(k), SealOk), Deliver(1, Some(k')), Post(Initiator, answer, None, SealOk);
    OneMoreEvent(start, Opening(f), r);
    OneMoreEvent(start, Opening(f) + [r], d);
    OneMoreEvent(start, Opening(f) + [r] + [d], a);
    ReplyNet(f, b0, reply, k);
    ReplyIsRead(f, reply, k, k');
    hide Run;
    hide SharedOf;
    hide Sent;
    hide Decrypted;
    hide Reader;
  }

  /** The session from before the reply derives another key for the answer. */
  lemma StaleSessionCannotRead(f: First, b0: Secret, k: Secret, k': Secret, answer: string, keypair: Option<Secret>)
    requires b0 != k && k' != f.own
    ensures !YieldsPlaintext(Decrypted(Reader(f, b0), AnswerMessage(f, k, k', answer), keypair).1)
  {
    AgreementIsSymmetricAndInjective(k', b0, k, k');
    hide SharedOf;
  }

  lemma ReplyLeaves(f: First, b0: Secret, reply: string, k: Secret)
    ensures var (s, r) := Encrypted(Reader(f, b0), reply, Some(k), SealOk);
            s == Replied(f, b0, k) && r.Success?
  {
    hide SharedOf;
  }

  /** Secrets generated in the exchange are new. */
  lemma SecretsDiffer(f: First, b0: Secret, reply: string, k: Secret, k': Secret, answer: string, more: seq<Event>)
    requires Possible(SetupOf(f, b0), Exchange(f, reply, k, k', answer) + more)
    ensures PublicPreKey(f) != Some(Point(k)) && b0 != k && k' != f.own
  {
    hide Run;
    hide SharedOf;
    hide Possible;
    hide Generated;
    hide Reader;
    hide Opener;
    var setup := SetupOf(f, b0);
    var r, d, a := Post(Responder, reply, Some(k), SealOk), Deliver(1, Some(k')), Post(Initiator, answer, None, SealOk);
    var all := Exchange(f, reply, k, k', answer) + more;
    OpeningNet(f, b0);
    OneMoreEvent(Begin(setup), Opening(f), r);
    assert all == Opening(f) + ([r, d, a] + more) == (Opening(f) + [r]) + ([d, a] + more);
    PossibleSplits(setup, Opening(f), [r, d, a] + more);
    PossibleSplits(setup, Opening(f) + [r], [d, a] + more);
    assert [r, d, a] + more == [r] + ([d, a] + more) && [d, a] + more == [d] + ([a] + more);
    FirstIsNew(Run(Begin(setup), Opening(f)), r, [d, a] + more);
    FirstIsNew(Run(Begin(setup), Opening(f) + [r]), d, [a] + more);
    MintedStay(Run(Begin(setup), Opening(f)), r);
  }

  lemma FirstIsNew(net: Net, e: Event, more: seq<Event>)
    requires Generated(net, [e] + more)
    ensures e.keypair.Some? ==> e.keypair.value !in net.minted
  {
    assert ([e] + more)[0] == e;
  }

  lemma MintedStay(net: Net, e: Event)
    ensures net.minted <= Apply(net, e).minted
  {
    hide Encrypted;
    hide Decrypted;
  }

  /** The account when the answer comes: the reply went out of the store, and the cache may have been lost since. */
  function AccountBeforeAnswer(acc: Account, peer: PublicKey, reply: string, k: Secret, restarted: bool): Account {
    var replied := Does(acc, Outgoing(peer, reply, Some(k), SealOk));
    if restarted then Does(replied, Restart) else replied
  }

  /**
   The answer to a reply arrives exactly when the client has been restarted since it read the first message: a
   reply goes out of the stored session only, and the cached one, left as it was, cannot read what answers it.
   */
  lemma AnswerArrivesExactlyWhenRestarted(f: First, past: seq<Activity>, first: KeyPairs, reply: string, k: Secret,
                                          k': Secret, answer: string, restarted: bool, pairs: KeyPairs)
    requires Awaits(f, past) && first.responder.Some? && pairs.existing.Some?
    requires Possible(SetupOf(f, first.responder.value),
                      Exchange(f, reply, k, k', answer) + [Deliver(2, pairs.existing)])
    ensures var peer := Point(f.a);
            var acc := Receive(DoesAll(NewAccount(f.b), past), peer, Parsed(Sent(f).0), first).0;
            var waiting := AccountBeforeAnswer(acc, peer, reply, k, restarted);
            var net := Run(Begin(SetupOf(f, first.responder.value)), Exchange(f, reply, k, k', answer));
            && |net.pool| == 3 && net.pool[2].text == answer
            && (Receive(waiting, peer, Wrapped(net.pool[2].message, None), pairs).1 == Success(Some(answer))
                <==> restarted)
  {
    hide Awaits;
    hide DoesAll;
    hide SharedOf;
    hide Sent;
    hide Run;
    hide Decrypted;
    hide Encrypted;
    var b0, peer := first.responder.value, Point(f.a);
    var acc := Receive(DoesAll(NewAccount(f.b), past), peer, Parsed(Sent(f).0), first).0;
    var waiting := AccountBeforeAnswer(acc, peer, reply, k, restarted);
    var setup, events := SetupOf(f, b0), Exchange(f, reply, k, k', answer);
    FirstMessageMeets(f, past, first);
    OpeningNet(f, b0);
    SecretsDiffer(f, b0, reply, k, k', answer, [Deliver(2, pairs.existing)]);
    AnswerNet(f, b0, reply, k, k', answer);
    ReplyLeaves(f, b0, reply, k);
    StaleSessionCannotRead(f, b0, k, k', answer, pairs.existing);
    var m := AnswerMessage(f, k, k', answer);
    assert Message(m.header, m.ciphertext) == m;
    if restarted {
      PossibleSplits(setup, events, [Deliver(2, pairs.existing)]);
      FirstIsNew(Run(Begin(setup), events), Deliver(2, pairs.existing), []);
      MessageIsReceived(setup, events, Responder, waiting, peer, 2, None, pairs);
    }
  }

  /** The session without its message keys: the part that decides how the next message is sealed. */
  ghost predicate SendsAs(s: SessionState, t: SessionState) {
    s.send == t.send && s.sendSecret == t.sendSecret && s.sendIndex == t.sendIndex && s.prevSend == t.prevSend
  }

  lemma ReadingKeepsSendSide(s: SessionState, m: Message, keypair: Option<Secret>)
    requires YieldsPlaintext(Decrypted(s, m, keypair).1) && s.send.Some?
    ensures var s' := Decrypted(s, m, keypair).0;
            if HeaderId(m.header) in s.skipped || s.recvRatchet == Some(m.header.ratchetKey) then SendsAs(s', s)
            else s'.send.Some? && keypair == Some(s'.sendSecret)
  {
    hide StoreSkipped;
    hide DecryptWithMessageKey;
  }

  /**
   Two replies with a message of the peer read in between, all in one life of the client, carry the same number and
   are sealed under the same key exactly when that message did not start a new chain: reading saves the cached
   session over the one the first reply had advanced.
   */
  lemma ReplyRepeatsExactlyWhen(acc: Account, peer: PublicKey, m: Message, x3dh: Option<X3dhParams>, pairs: KeyPairs,
                                first: string, second: string)
    requires peer in acc.sessions && acc == Holding(acc, peer, acc.sessions[peer]) && acc.sessions[peer].send.Some?
    requires YieldsPlaintext(Decrypted(acc.sessions[peer], m, pairs.existing).1)
    requires pairs.existing != Some(acc.sessions[peer].sendSecret)
    ensures var s := acc.sessions[peer];
            var replied := Does(acc, Outgoing(peer, first, None, SealOk));
            var read := Receive(replied, peer, Wrapped(m, x3dh), pairs).0;
            && peer in read.stored
            && var r1, r2 := Encrypted(acc.stored[peer], first, None, SealOk).1,
                             Encrypted(read.stored[peer], second, None, SealOk).1;
               && r1.Success? && r2.Success?
               && (r2.value.header == r1.value.header && r2.value.ciphertext.key == r1.value.ciphertext.key <==>
                     HeaderId(m.header) in s.skipped || s.recvRatchet == Some(m.header.ratchetKey))
  {
    hide Decrypted;
    assert acc.stored[peer] == acc.sessions[peer];
    ReadingKeepsSendSide(acc.sessions[peer], m, pairs.existing);
    assert Message(m.header, m.ciphertext) == m;
  }
}
