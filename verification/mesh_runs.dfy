/**
 Runs of the whole mesh simulator: nodes and links come and go, the clock moves on, and messages are published
 from anywhere (clients/core/src/mesh.rs:150-181 and 211-373).
 */
module MeshRuns {
  import opened Wrappers
  import opened Text
  import opened MeshNames
  import opened MeshDedupe
  import opened MeshFlood

  datatype Action =
    | AddNode(id: string)
    | Subscribe(id: string, topic: string)
    | Link(left: string, right: string)
    | Unlink(left: string, right: string)
    | RemoveNode(id: string)
    | SetNow(now: nat)
    | Publish(origin: string, envelope: Envelope)

  ghost predicate Known(t: Topology, rawId: string) {
    NormalizeNodeId(rawId).Some? && NormalizeNodeId(rawId).value in t.nodes
  }

  /** The publish starts to spread: the envelope is valid and the origin exists. */
  ghost predicate Spreads(t: Topology, a: Action) {
    a.Publish? && Validate(a.envelope, t.now).None? && Known(t, a.origin)
  }

  ghost function SpreadOf(t: Topology, a: Action): Spread
    requires Spreads(t, a)
  {
    Spread(t.links, t.now, NormalizeNodeId(a.origin).value, a.envelope, t.nodes)
  }

  /** One call on the simulator, as the contracts of its methods state it; a publish also gives a report. */
  ghost predicate Did(t: Topology, a: Action, t': Topology, r: Option<Report>) {
    match a
    case AddNode(id) =>
      t' == if NormalizeNodeId(id).Some? then Added(t, NormalizeNodeId(id).value) else t
    case Subscribe(id, topic) =>
      t' == if Known(t, id) && IsValidTopic(topic) then Subscribed(t, NormalizeNodeId(id).value, topic) else t
    case Link(left, right) =>
      t' == if Known(t, left) && Known(t, right)
            then Linked(t, NormalizeNodeId(left).value, NormalizeNodeId(right).value) else t
    case Unlink(left, right) =>
      t' == if Known(t, left) && Known(t, right)
            then Unlinked(t, NormalizeNodeId(left).value, NormalizeNodeId(right).value) else t
    case RemoveNode(id) =>
      t' == if Known(t, id) then Removed(t, NormalizeNodeId(id).value) else t
    case SetNow(now) => t' == Ticked(t, now)
    case Publish(_, _) =>
      if Spreads(t, a) then
        && r.Some?
        && t' == t.(nodes := t'.nodes)
        && Published(SpreadOf(t, a), t'.nodes, r.value)
      else t' == t && r.None?
  }

  /** Any call on the simulator is such a step. */
  method Perform(simulator: MeshSimulator, a: Action) returns (report: Option<Report>)
    requires simulator.Valid()
    modifies simulator
    ensures simulator.Valid() && Did(old(simulator.State()), a, simulator.State(), report)
  {
    hide Published;
    hide Validate;
    hide NormalizeNodeId;
    hide Connected;
    hide IsValidTopic;
    report := None;
    match a {
      case AddNode(id) => var _ := simulator.AddNode(id);
      case Subscribe(id, topic) => var _ := simulator.Subscribe(id, topic);
      case Link(left, right) => var _ := simulator.LinkBidirectional(left, right);
      case Unlink(left, right) => var _ := simulator.UnlinkBidirectional(left, right);
      case RemoveNode(id) => var _ := simulator.RemoveNode(id);
      case SetNow(now) => simulator.SetNowMs(now);
      case Publish(origin, envelope) =>
        var r := simulator.Publish(origin, envelope);
        if r.Success? {
          report := Some(r.value);
        }
    }
  }

  /** A run: the states it passes through, and the report of each publish that spread. */
  datatype Run = Run(actions: seq<Action>, states: seq<Topology>, reports: seq<Option<Report>>)

  ghost predicate IsRun(run: Run) {
    && |run.states| == |run.actions| + 1 && |run.reports| == |run.actions|
    && run.states[0].nodes == map[] && run.states[0].links == map[]
    && forall i :: 0 <= i < |run.actions| ==> Did(run.states[i], run.actions[i], run.states[i + 1], run.reports[i])
  }

  lemma ActionKeepsConnected(t: Topology, a: Action, t': Topology, r: Option<Report>)
    requires Connected(t) && Did(t, a, t', r)
    ensures Connected(t')
  {
    hide Connected;
    hide Published;
    hide NormalizeNodeId;
    hide Validate;
    match a
    case AddNode(id) =>
      if NormalizeNodeId(id).Some? { AddingKeepsConnected(t, NormalizeNodeId(id).value); }
    case Subscribe(id, topic) =>
      if Known(t, id) { SubscribingKeepsConnected(t, NormalizeNodeId(id).value, topic); }
    case Link(left, right) =>
      if Known(t, left) && Known(t, right) {
        LinkingKeepsConnected(t, NormalizeNodeId(left).value, NormalizeNodeId(right).value);
      }
    case Unlink(left, right) =>
      if Known(t, left) && Known(t, right) {
        UnlinkingKeepsConnected(t, NormalizeNodeId(left).value, NormalizeNodeId(right).value);
      }
    case RemoveNode(id) =>
      if Known(t, id) { RemovingKeepsConnected(t, NormalizeNodeId(id).value); }
    case SetNow(now) => TickingKeepsConnected(t, now);
    case Publish(_, _) =>
      if Spreads(t, a) { PublishedKeepsConnected(SpreadOf(t, a), t'.nodes, r.value, t); }
  }

  lemma {:induction false} AlwaysConnected(run: Run, n: nat)
    requires IsRun(run) && n < |run.states|
    ensures Connected(run.states[n])
  {
    hide Did;
    hide Connected;
    if n == 0 {
      NothingIsConnected(run.states[0]);
    } else {
      AlwaysConnected(run, n - 1);
      ActionKeepsConnected(run.states[n - 1], run.actions[n - 1], run.states[n], run.reports[n - 1]);
    }
  }

  lemma NothingIsConnected(t: Topology)
    requires t.nodes == map[] && t.links == map[]
    ensures Connected(t)
  {
  }

  // ----- what the network is, by the list of actions alone -----

  /** The action names this node in one of its places. */
  ghost predicate Names(rawId: string, n: string) {
    IsPlain(Trim(rawId), 128, "_-.") && ToAsciiLower(Trim(rawId)) == n
  }

  /** The node was added and not removed since. */
  ghost predicate HasNode(actions: seq<Action>, n: string) {
    if actions == [] then false
    else
      var before, a := actions[..|actions| - 1], actions[|actions| - 1];
      if a.AddNode? && Names(a.id, n) then true
      else if a.RemoveNode? && Names(a.id, n) then false
      else HasNode(before, n)
  }

  /** The two nodes were linked, and neither unlinked nor removed since. */
  ghost predicate HasLink(actions: seq<Action>, m: string, n: string) {
    if actions == [] then false
    else
      var before, a := actions[..|actions| - 1], actions[|actions| - 1];
      if a.Link? && ((Names(a.left, m) && Names(a.right, n)) || (Names(a.left, n) && Names(a.right, m)))
      then HasNode(before, m) && HasNode(before, n)
      else if a.Unlink? && ((Names(a.left, m) && Names(a.right, n)) || (Names(a.left, n) && Names(a.right, m)))
      then false
      else if a.RemoveNode? && (Names(a.id, m) || Names(a.id, n)) then false
      else HasLink(before, m, n)
  }

  /** The node was subscribed to the topic and not removed since. */
  ghost predicate HasTopic(actions: seq<Action>, n: string, topic: string) {
    if actions == [] then false
    else
      var before, a := actions[..|actions| - 1], actions[|actions| - 1];
      if a.Subscribe? && Names(a.id, n) && a.topic == topic && HasNode(before, n) && IsTopic(topic) then true
      else if a.RemoveNode? && Names(a.id, n) then false
      else HasTopic(before, n, topic)
  }

  ghost predicate Reflects(t: Topology, actions: seq<Action>) {
    && (forall n :: n in t.nodes <==> HasNode(actions, n))
    && (forall m, n :: n in Neighbours(t.links, m) <==> HasLink(actions, m, n))
    && (forall n, topic :: n in t.nodes && topic in t.nodes[n].subscriptions <==> HasTopic(actions, n, topic))
  }

  lemma NamesNode(rawId: string, n: string)
    ensures NormalizeNodeId(rawId) == Some(n) <==> Names(rawId, n)
  {
    hide IsPlain;
    hide NormalizeNodeId;
    SegmentExactlyWhen(rawId);
  }

  lemma OneMore(actions: seq<Action>, a: Action)
    ensures (actions + [a])[..|actions|] == actions && (actions + [a])[|actions|] == a
  {
  }

  lemma ActionReflectsNodes(t: Topology, a: Action, t': Topology, r: Option<Report>, past: seq<Action>, n: string)
    requires Connected(t) && Did(t, a, t', r) && Reflects(t, past)
    ensures n in t'.nodes <==> HasNode(past + [a], n)
  {
    hide Names;
    hide NormalizeNodeId;
    hide Validate;
    hide IsValidTopic;
    hide HasLink;
    hide HasTopic;
    hide Cached;
    OneMore(past, a);
    if a.AddNode? || a.RemoveNode? {
      NamesNode(a.id, n);
    }
  }

  lemma ActionReflectsLinks(t: Topology, a: Action, t': Topology, r: Option<Report>, past: seq<Action>, m: string,
                            n: string)
    requires Connected(t) && Did(t, a, t', r) && Reflects(t, past)
    ensures n in Neighbours(t'.links, m) <==> HasLink(past + [a], m, n)
  {
    hide Names;
    hide NormalizeNodeId;
    hide Validate;
    hide IsValidTopic;
    hide HasNode;
    hide HasTopic;
    hide Published;
    hide MeshDedupe.Sound;
    OneMore(past, a);
    if a.Link? || a.Unlink? {
      NamesNode(a.left, m);
      NamesNode(a.left, n);
      NamesNode(a.right, m);
      NamesNode(a.right, n);
    } else if a.RemoveNode? {
      NamesNode(a.id, m);
      NamesNode(a.id, n);
    }
  }

  lemma ActionReflectsTopics(t: Topology, a: Action, t': Topology, r: Option<Report>, past: seq<Action>, n: string,
                             topic: string)
    requires Connected(t) && Did(t, a, t', r) && Reflects(t, past)
    ensures n in t'.nodes && topic in t'.nodes[n].subscriptions <==> HasTopic(past + [a], n, topic)
  {
    hide Names;
    hide NormalizeNodeId;
    hide Validate;
    hide IsValidTopic;
    hide IsTopic;
    hide HasLink;
    hide Cached;
    hide MeshDedupe.Sound;
    OneMore(past, a);
    assert n in t.nodes <==> HasNode(past, n);
    if a.Subscribe? {
      NamesNode(a.id, n);
      TopicExactlyWhen(a.topic);
    } else if a.RemoveNode? || a.AddNode? {
      NamesNode(a.id, n);
    }
  }

  /** The time that was set last. */
  function TimeAfter(actions: seq<Action>, start: nat): nat {
    if actions == [] then start
    else if actions[|actions| - 1].SetNow? then actions[|actions| - 1].now
    else TimeAfter(actions[..|actions| - 1], start)
  }

  /** In every run the clock shows the time that was set last. */
  lemma {:induction false} ClockIsLastSet(run: Run, n: nat)
    requires IsRun(run) && n < |run.states|
    ensures run.states[n].now == TimeAfter(run.actions[..n], run.states[0].now)
  {
    hide Published;
    hide NormalizeNodeId;
    hide Validate;
    hide IsValidTopic;
    if n > 0 {
      var a, past := run.actions[n - 1], run.actions[..n - 1];
      assert past + [a] == run.actions[..n];
      OneMore(past, a);
      ClockIsLastSet(run, n - 1);
      assert Did(run.states[n - 1], a, run.states[n], run.reports[n - 1]);
    }
  }

  /** In every run, nodes, links and subscriptions are exactly what the actions so far say. */
  lemma {:induction false} NetworkIsItsHistory(run: Run, n: nat)
    requires IsRun(run) && n < |run.states|
    ensures Reflects(run.states[n], run.actions[..n])
  {
    hide Did;
    hide Connected;
    hide HasNode;
    hide HasLink;
    hide HasTopic;
    if n == 0 {
      NothingReflected(run.states[0]);
    } else {
      var t, a, t', past := run.states[n - 1], run.actions[n - 1], run.states[n], run.actions[..n - 1];
      assert past + [a] == run.actions[..n];
      NetworkIsItsHistory(run, n - 1);
      AlwaysConnected(run, n - 1);
      forall m
        ensures m in t'.nodes <==> HasNode(past + [a], m)
      {
        ActionReflectsNodes(t, a, t', run.reports[n - 1], past, m);
      }
      forall k, m
        ensures m in Neighbours(t'.links, k) <==> HasLink(past + [a], k, m)
      {
        ActionReflectsLinks(t, a, t', run.reports[n - 1], past, k, m);
      }
      forall m, topic
        ensures m in t'.nodes && topic in t'.nodes[m].subscriptions <==> HasTopic(past + [a], m, topic)
      {
        ActionReflectsTopics(t, a, t', run.reports[n - 1], past, m, topic);
      }
    }
  }

  lemma NothingReflected(t: Topology)
    requires t.nodes == map[] && t.links == map[]
    ensures Reflects(t, [])
  {
  }

  // ----- a remembered message -----

  /** The node is there and remembers the message until it expires. */
  ghost predicate Remembers(t: Topology, n: string, key: string, expiresAt: nat) {
    n in t.nodes && key in t.nodes[n].dedupe.seen && t.nodes[n].dedupe.seen[key] == expiresAt
  }

  lemma TickingRemembers(t: Topology, now: nat, n: string, key: string, expiresAt: nat)
    requires Connected(t) && Remembers(t, n, key, expiresAt) && now < expiresAt
    ensures Remembers(Ticked(t, now), n, key, expiresAt)
  {
    hide Pruned;
    PruningIsSound(t.nodes[n].dedupe, now);
  }

  lemma PublishingRemembers(x: Spread, nodes: map<string, Node>, r: Report, n: string, key: string)
    requires Published(x, nodes, r) && n in x.before && n in nodes
    requires key in x.before[n].dedupe.seen && x.before[n].dedupe.seen[key] > x.now
    ensures key in nodes[n].dedupe.seen && nodes[n].dedupe.seen[key] == x.before[n].dedupe.seen[key]
  {
    hide Ball;
    hide Knows;
    hide MeshDedupe.Sound;
    hide DeliveredRightly;
    hide WantsIt;
  }

  lemma ActionRemembers(t: Topology, a: Action, t': Topology, r: Option<Report>, n: string, key: string, expiresAt: nat)
    requires Connected(t) && Did(t, a, t', r) && Remembers(t, n, key, expiresAt)
    requires n in t'.nodes && t.now < expiresAt && t'.now < expiresAt
    ensures Remembers(t', n, key, expiresAt)
  {
    hide Connected;
    hide Published;
    hide Validate;
    hide NormalizeNodeId;
    hide IsValidTopic;
    hide Pruned;
    match a
    case SetNow(now) => TickingRemembers(t, now, n, key, expiresAt);
    case Publish(_, _) =>
      if Spreads(t, a) { PublishingRemembers(SpreadOf(t, a), t'.nodes, r.value, n, key); }
    case _ =>
  }

  // ----- at most once -----

  /** The publish at step i teaches the node the message: the node lies within its hop limit and did not know it. */
  ghost predicate Accepts(run: Run, i: nat, n: string)
    requires IsRun(run) && i < |run.actions|
  {
    Spreads(run.states[i], run.actions[i]) &&
    n in Ball(SpreadOf(run.states[i], run.actions[i]), run.actions[i].envelope.hopLimit)
  }

  lemma AcceptingRemembers(run: Run, i: nat, n: string)
    requires IsRun(run) && i < |run.actions| && Accepts(run, i, n)
    ensures Remembers(run.states[i + 1], n, KeyOf(run.actions[i].envelope), run.actions[i].envelope.expiresAt)
    ensures run.states[i + 1].now == run.states[i].now < run.actions[i].envelope.expiresAt
  {
    hide Ball;
    hide Knows;
    hide Validate;
    hide NormalizeNodeId;
    hide MeshDedupe.Sound;
    hide DeliveredRightly;
    hide WantsIt;
    var t, a := run.states[i], run.actions[i];
    assert Did(t, a, run.states[i + 1], run.reports[i]);
    ValidIsLive(a.envelope, t.now);
    BallIsUnaware(SpreadOf(t, a), a.envelope.hopLimit);
    InUnaware(SpreadOf(t, a), n);
  }

  lemma InUnaware(x: Spread, n: string)
    requires n in Unaware(x)
    ensures n in x.before && KeyOf(x.envelope) !in Pruned(x.before[n].dedupe, x.now).seen
  {
  }

  lemma OnlyPublishAccepts(run: Run, i: nat, n: string)
    requires IsRun(run) && i < |run.actions| && Accepts(run, i, n)
    ensures run.actions[i].Publish?
  {
  }

  /** From just after step i up to step k the node stays and the message has not expired. */
  ghost predicate StaysFresh(run: Run, i: nat, k: nat, n: string)
    requires IsRun(run) && i < |run.actions| && run.actions[i].Publish?
  {
    forall m :: i < m <= k && m < |run.states| ==>
      n in run.states[m].nodes && run.states[m].now < run.actions[i].envelope.expiresAt
  }

  lemma {:induction false} StillRemembers(run: Run, i: nat, k: nat, n: string)
    requires IsRun(run) && i < k < |run.states| && run.actions[i].Publish?
    requires Accepts(run, i, n) && StaysFresh(run, i, k, n)
    ensures Remembers(run.states[k], n, KeyOf(run.actions[i].envelope), run.actions[i].envelope.expiresAt)
    decreases k
  {
    hide Accepts;
    hide Did;
    hide Connected;
    hide Remembers;
    if k == i + 1 {
      AcceptingRemembers(run, i, n);
    } else {
      StillRemembers(run, i, k - 1, n);
      AlwaysConnected(run, k - 1);
      ActionRemembers(run.states[k - 1], run.actions[k - 1], run.states[k], run.reports[k - 1], n,
                      KeyOf(run.actions[i].envelope), run.actions[i].envelope.expiresAt);
    }
  }

  ghost predicate ClockNeverGoesBack(run: Run) {
    forall i, j :: 0 <= i < j < |run.states| ==> run.states[i].now <= run.states[j].now
  }

  /** A node that remembers a live message does not accept it. */
  lemma RememberingRefuses(run: Run, j: nat, n: string, expiresAt: nat)
    requires IsRun(run) && j < |run.actions| && run.actions[j].Publish?
    requires Remembers(run.states[j], n, KeyOf(run.actions[j].envelope), expiresAt) && run.states[j].now < expiresAt
    ensures !Accepts(run, j, n)
  {
    hide Validate;
    hide NormalizeNodeId;
    hide Ball;
    hide Did;
    if Accepts(run, j, n) {
      var x := SpreadOf(run.states[j], run.actions[j]);
      AlwaysConnected(run, j);
      BallIsUnaware(x, run.actions[j].envelope.hopLimit);
      InUnaware(x, n);
      PruningIsSound(x.before[n].dedupe, x.now);
      assert false;
    }
  }

  /**
   In every run whose clock never goes back, a node that stays in the network accepts a (topic, message id) at
   most once before the first accepted copy expires, wherever, by whom and however often it is published.
   */
  lemma AcceptedOnceInNetwork(run: Run, i: nat, j: nat, n: string)
    requires IsRun(run) && ClockNeverGoesBack(run) && i < j < |run.actions|
    requires Accepts(run, i, n) && Accepts(run, j, n)
    requires run.actions[i].envelope.topic == run.actions[j].envelope.topic
    requires run.actions[i].envelope.msgId == run.actions[j].envelope.msgId
    requires forall k :: i < k <= j ==> n in run.states[k].nodes
    ensures run.actions[i].envelope.expiresAt <= run.states[j].now
  {
    hide Did;
    hide Remembers;
    hide Accepts;
    OnlyPublishAccepts(run, i, n);
    OnlyPublishAccepts(run, j, n);
    var expiresAt := run.actions[i].envelope.expiresAt;
    if run.states[j].now < expiresAt {
      StillRemembers(run, i, j, n);
      RememberingRefuses(run, j, n, expiresAt);
    }
  }

  /** What is delivered was accepted: so deliveries, too, come at most once before expiry. */
  lemma DeliveredWasAccepted(run: Run, i: nat, d: Delivery)
    requires IsRun(run) && i < |run.actions| && run.actions[i].Publish?
    requires run.reports[i].Some? && d in run.reports[i].value.delivered
    ensures Accepts(run, i, d.nodeId)
  {
    hide Ball;
    hide Validate;
    hide NormalizeNodeId;
    hide Knows;
    hide Cached;
    hide MeshDedupe.Sound;
    var t, a := run.states[i], run.actions[i];
    assert Did(t, a, run.states[i + 1], run.reports[i]);
    var x := SpreadOf(t, a);
    assert DeliveredRightly(x, d);
    var k: nat :| k <= x.envelope.hopLimit && AtDistance(x, d.nodeId, k) && d == DeliveryAt(x, d.nodeId, k);
    BallsGrow(x, k, x.envelope.hopLimit);
  }
}
