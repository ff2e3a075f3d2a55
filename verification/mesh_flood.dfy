/**
 The mesh simulator: a changing topology and the hop-limited flood over it
 (clients/core/src/mesh.rs:125-142 and 184-386).

 `publish` is a breadth-first search in disguise.  The order in which a node's neighbours are
 queued is arbitrary, as the source's hash sets leave it.
 */
module MeshFlood {
  import opened Wrappers
  import opened Sequences
  import opened Text
  import opened MeshNames
  import opened MeshDedupe

  datatype Node = Node(subscriptions: set<string>, dedupe: Cache)

  datatype Topology = Topology(nodes: map<string, Node>, links: map<string, set<string>>, now: nat)

  function Neighbours(links: map<string, set<string>>, id: string): set<string> {
    if id in links then links[id] else {}
  }

  // ----- topology -----

  /** Links connect existing nodes, in both directions, and every cache is sound. */
  ghost predicate Connected(t: Topology) {
    && t.links.Keys == t.nodes.Keys
    && (forall a, b :: a in t.links && b in t.links[a] ==> b in t.links && a in t.links[b])
    && (forall n :: n in t.nodes ==> MeshDedupe.Sound(t.nodes[n].dedupe))
  }

  function Added(t: Topology, id: string): Topology {
    t.(nodes := if id in t.nodes then t.nodes else t.nodes[id := Node({}, EMPTY)],
       links := if id in t.links then t.links else t.links[id := {}])
  }

  function Linked(t: Topology, left: string, right: string): Topology {
    var links := t.links[left := Neighbours(t.links, left) + {right}];
    t.(links := links[right := Neighbours(links, right) + {left}])
  }

  function Unlinked(t: Topology, left: string, right: string): Topology {
    var links := if left in t.links then t.links[left := t.links[left] - {right}] else t.links;
    t.(links := if right in links then links[right := links[right] - {left}] else links)
  }

  function Removed(t: Topology, id: string): Topology {
    t.(nodes := t.nodes - {id}, links := map n | n in t.links && n != id :: t.links[n] - {id})
  }

  function Subscribed(t: Topology, id: string, topic: string): Topology
    requires id in t.nodes
  {
    t.(nodes := t.nodes[id := t.nodes[id].(subscriptions := t.nodes[id].subscriptions + {topic})])
  }

  function Ticked(t: Topology, now: nat): Topology {
    t.(now := now, nodes := map n | n in t.nodes :: t.nodes[n].(dedupe := Pruned(t.nodes[n].dedupe, now)))
  }

  lemma AddingKeepsConnected(t: Topology, id: string)
    requires Connected(t)
    ensures Connected(Added(t, id))
  {
  }

  lemma LinkingKeepsConnected(t: Topology, left: string, right: string)
    requires Connected(t) && left in t.nodes && right in t.nodes
    ensures Connected(Linked(t, left, right))
  {
    hide MeshDedupe.Sound;
    var links := Linked(t, left, right).links;
    forall a, b | a in links && b in links[a]
      ensures b in links && a in links[b]
    {
      assert b in Neighbours(t.links, a) || (a == left && b == right) || (a == right && b == left);
    }
  }

  lemma UnlinkingKeepsConnected(t: Topology, left: string, right: string)
    requires Connected(t) && left in t.nodes && right in t.nodes
    ensures Connected(Unlinked(t, left, right))
  {
    hide MeshDedupe.Sound;
  }

  lemma RemovingKeepsConnected(t: Topology, id: string)
    requires Connected(t)
    ensures Connected(Removed(t, id))
  {
    hide MeshDedupe.Sound;
  }

  lemma SubscribingKeepsConnected(t: Topology, id: string, topic: string)
    requires Connected(t) && id in t.nodes
    ensures Connected(Subscribed(t, id, topic))
  {
    hide MeshDedupe.Sound;
  }

  /** Setting the time drops expired keys, oldest first up to the first live one, and keeps all live ones. */
  lemma TickingPrunes(t: Topology, now: nat, n: string)
    requires Connected(t) && n in t.nodes
    ensures var before, after := t.nodes[n].dedupe, Ticked(t, now).nodes[n].dedupe;
            && (after.order != [] ==> after.order[0] in after.seen && after.seen[after.order[0]] > now)
            && (forall key :: key in after.seen ==> key in before.seen && after.seen[key] == before.seen[key])
            && (forall key :: key in before.seen && before.seen[key] > now ==> key in after.seen)
  {
    hide Pruned;
    PruningIsSound(t.nodes[n].dedupe, now);
  }

  lemma TickingKeepsConnected(t: Topology, now: nat)
    requires Connected(t)
    ensures Connected(Ticked(t, now))
  {
    hide MeshDedupe.Sound;
    hide Pruned;
    forall n | n in t.nodes
      ensures MeshDedupe.Sound(Pruned(t.nodes[n].dedupe, now))
    {
      PruningIsSound(t.nodes[n].dedupe, now);
    }
  }

  // ----- one arrival -----

  datatype Arrival = Arrival(to: string, from: Option<string>, envelope: Envelope)

  datatype Delivery = Delivery(nodeId: string, topic: string, msgId: string, hopLimit: nat)

  datatype Report = Report(delivered: seq<Delivery>, forwarded: nat, duplicates: nat, expired: nat,
                           hopLimited: nat, unknown: nat)

  /** The nodes, the queue and the report while a message spreads. */
  datatype Flood = Flood(nodes: map<string, Node>, queue: seq<Arrival>, report: Report)

  ghost predicate Lists(order: seq<string>, s: set<string>) {
    NoDuplicates(order) && forall x :: x in order <==> x in s
  }

  /** The neighbours a node passes a message on to: all but the one it came from. */
  function Onward(links: map<string, set<string>>, a: Arrival): set<string> {
    set n | n in Neighbours(links, a.to) && Some(n) != a.from
  }

  function Sends(from: string, order: seq<string>, next: Envelope): (q: seq<Arrival>)
    ensures |q| == |order|
    ensures forall i :: 0 <= i < |order| ==> q[i] == Arrival(order[i], Some(from), next)
  {
    seq(|order|, i requires 0 <= i < |order| => Arrival(order[i], Some(from), next))
  }

  function Forwarded(f: Flood, a: Arrival, order: seq<string>): Flood {
    match NextHop(a.envelope)
    case None => f.(report := f.report.(hopLimited := f.report.hopLimited + |order|))
    case Some(next) =>
      f.(queue := f.queue + Sends(a.to, order, next),
         report := f.report.(forwarded := f.report.forwarded + |order|))
  }

  /** What `accept_at_node` does, for one order of the onward neighbours. */
  function Arrived(f: Flood, now: nat, a: Arrival, order: seq<string>): Flood {
    var r := f.report;
    if Validate(a.envelope, now).Some? then
      if a.envelope.expiresAt <= now then f.(report := r.(expired := r.expired + 1)) else f
    else if a.to !in f.nodes then f.(report := r.(unknown := r.unknown + 1))
    else
      var node := f.nodes[a.to];
      match Remembered(node.dedupe, a.envelope, now)
      case Failure(_) => f
      case Success((cache, false)) =>
        f.(nodes := f.nodes[a.to := node.(dedupe := cache)], report := r.(duplicates := r.duplicates + 1))
      case Success((cache, true)) =>
        var delivery := Delivery(a.to, a.envelope.topic, a.envelope.msgId, a.envelope.hopLimit);
        var delivered := if a.envelope.topic in node.subscriptions then r.delivered + [delivery] else r.delivered;
        Forwarded(f.(nodes := f.nodes[a.to := node.(dedupe := cache)], report := r.(delivered := delivered)), a, order)
  }

  /** An arrival that may not be sent any more, or finds no node, only counts as expired or unknown. */
  lemma UnwelcomeArrivals(f: Flood, now: nat, a: Arrival, order: seq<string>)
    requires !IsSendable(a.envelope, now) || a.to !in f.nodes
    ensures var f' := Arrived(f, now, a, order);
            && f'.nodes == f.nodes && f'.queue == f.queue
            && f'.report == f.report.(
                 expired := f.report.expired + if a.envelope.expiresAt <= now then 1 else 0,
                 unknown := f.report.unknown + if IsSendable(a.envelope, now) then 1 else 0)
  {
    hide Validate;
    hide IsTopic;
    hide IsPlain;
    hide Utf8Len;
    ValidExactlyWhen(a.envelope, now);
  }

  // ----- distance -----

  /** What is fixed while one message spreads. */
  datatype Spread = Spread(links: map<string, set<string>>, now: nat, origin: string, envelope: Envelope,
                           before: map<string, Node>)

  /** The nodes that do not remember the message when it is published. */
  ghost function Unaware(x: Spread): set<string> {
    set n | n in x.before && KeyOf(x.envelope) !in Pruned(x.before[n].dedupe, x.now).seen
  }

  /** The nodes reached from the origin in at most k links, through unaware nodes only. */
  ghost function Ball(x: Spread, k: nat): set<string> {
    if x.origin !in Unaware(x) then {}
    else if k == 0 then {x.origin}
    else Ball(x, k - 1) + (set n | n in Unaware(x) && exists m :: m in Ball(x, k - 1) && n in Neighbours(x.links, m))
  }

  ghost predicate AtDistance(x: Spread, n: string, k: nat) {
    n in Ball(x, k) && (k > 0 ==> n !in Ball(x, k - 1))
  }

  /** A walk along links from the origin, through unaware nodes only. */
  ghost predicate IsWalk(x: Spread, walk: seq<string>) {
    && walk != []
    && walk[0] == x.origin
    && (forall i :: 0 <= i < |walk| ==> walk[i] in Unaware(x))
    && (forall i :: 0 <= i < |walk| - 1 ==> walk[i + 1] in Neighbours(x.links, walk[i]))
  }

  lemma {:induction false} BallsGrow(x: Spread, j: nat, k: nat)
    requires j <= k
    ensures Ball(x, j) <= Ball(x, k)
  {
    if j < k {
      BallsGrow(x, j, k - 1);
    }
  }

  lemma {:induction false} BallHasWalk(x: Spread, n: string, k: nat) returns (walk: seq<string>)
    requires n in Ball(x, k)
    ensures IsWalk(x, walk) && walk[|walk| - 1] == n && |walk| <= k + 1
    decreases k
  {
    hide Unaware;
    if k == 0 {
      walk := [x.origin];
    } else if n in Ball(x, k - 1) {
      walk := BallHasWalk(x, n, k - 1);
    } else {
      var m :| m in Ball(x, k - 1) && n in Neighbours(x.links, m);
      var prefix := BallHasWalk(x, m, k - 1);
      walk := prefix + [n];
    }
  }

  lemma {:induction false} WalkStaysInBall(x: Spread, walk: seq<string>)
    requires IsWalk(x, walk)
    ensures walk[|walk| - 1] in Ball(x, |walk| - 1)
    decreases |walk|
  {
    if |walk| > 1 {
      WalkStaysInBall(x, walk[..|walk| - 1]);
      assert walk[|walk| - 1] in Neighbours(x.links, walk[|walk| - 2]);
    }
  }

  /** The ball of radius k is exactly the set of end points of walks of at most k links. */
  lemma BallIsReachability(x: Spread, n: string, k: nat)
    ensures n in Ball(x, k) <==> exists walk :: IsWalk(x, walk) && walk[|walk| - 1] == n && |walk| <= k + 1
  {
    if n in Ball(x, k) {
      var _ := BallHasWalk(x, n, k);
    }
    forall walk | IsWalk(x, walk) && walk[|walk| - 1] == n && |walk| <= k + 1
      ensures n in Ball(x, k)
    {
      WalkStaysInBall(x, walk);
      BallsGrow(x, |walk| - 1, k);
    }
  }

  /** A distance is the smallest radius whose ball holds the node. */
  lemma DistanceIsLeast(x: Spread, n: string, k: nat, j: nat)
    requires AtDistance(x, n, k) && n in Ball(x, j)
    ensures k <= j
  {
    hide Ball;
    hide Unaware;
    if j < k {
      BallsGrow(x, j, k - 1);
    }
  }

  // ----- the search invariant -----

  ghost function LevelOf(x: Spread, a: Arrival): int {
    x.envelope.hopLimit - a.envelope.hopLimit
  }

  ghost predicate Started(x: Spread) {
    && x.links.Keys == x.before.Keys
    && (forall a, b :: a in x.links && b in x.links[a] ==> b in x.links && a in x.links[b])
    && (forall n :: n in x.before ==> MeshDedupe.Sound(x.before[n].dedupe))
    && Validate(x.envelope, x.now) == None
    && x.origin in x.before
  }

  /** Accepted nodes carry their exact distance, and all nearer ones are accepted. */
  ghost predicate LevelsExact(x: Spread, level: map<string, nat>, c: nat) {
    && (forall n :: n in level ==> AtDistance(x, n, level[n]) && level[n] <= c && level[n] <= x.envelope.hopLimit)
    && (c > 0 ==> Ball(x, c - 1) <= level.Keys)
    && (x.origin in Unaware(x) ==> x.origin in level)
  }

  /** A queued copy is one hop beyond an accepted sender it is linked to. */
  ghost predicate Queued(x: Spread, level: map<string, nat>, c: nat, a: Arrival) {
    && (LevelOf(x, a) == c || LevelOf(x, a) == c + 1)
    && 1 <= LevelOf(x, a) <= x.envelope.hopLimit
    && a.envelope == x.envelope.(hopLimit := x.envelope.hopLimit - LevelOf(x, a))
    && a.from.Some?
    && a.from.value in level
    && level[a.from.value] == LevelOf(x, a) - 1
    && a.to in Neighbours(x.links, a.from.value)
  }

  ghost predicate QueueOrdered(x: Spread, level: map<string, nat>, c: nat, queue: seq<Arrival>) {
    && (forall i :: 0 <= i < |queue| ==> Queued(x, level, c, queue[i]))
    && (forall i, j :: 0 <= i < j < |queue| ==> LevelOf(x, queue[i]) <= LevelOf(x, queue[j]))
  }

  ghost predicate OnItsWay(x: Spread, queue: seq<Arrival>, n: string, level: nat) {
    exists a :: a in queue && a.to == n && LevelOf(x, a) == level
  }

  /** Every unaware neighbour of an accepted node within the hop limit is accepted or queued. */
  ghost predicate Closed(x: Spread, level: map<string, nat>, queue: seq<Arrival>) {
    forall n, m :: n in level && m in Neighbours(x.links, n) && m in Unaware(x) && level[n] < x.envelope.hopLimit ==>
      m in level || OnItsWay(x, queue, m, level[n] + 1)
  }

  ghost predicate Knows(x: Spread, node: Node) {
    KeyOf(x.envelope) in Pruned(node.dedupe, x.now).seen
  }

  /** Live entries stay, the only new key is the message's, and a node that accepts records its expiry. */
  ghost predicate Cached(x: Spread, before: Cache, after: Cache, accepted: bool) {
    && (forall key :: key in before.seen && before.seen[key] > x.now ==>
          key in after.seen && after.seen[key] == before.seen[key])
    && (forall key :: key in after.seen && key != KeyOf(x.envelope) ==>
          key in before.seen && after.seen[key] == before.seen[key])
    && (accepted ==> KeyOf(x.envelope) in after.seen && after.seen[KeyOf(x.envelope)] == x.envelope.expiresAt)
  }

  lemma CachedTwice(x: Spread, before: Cache, between: Cache, after: Cache, was: bool, accepted: bool)
    requires x.envelope.expiresAt > x.now
    requires Cached(x, before, between, was) && Cached(x, between, after, accepted)
    ensures Cached(x, before, after, was || accepted)
  {
  }

  /** Exactly the accepted nodes have learned the message; subscriptions are as before. */
  ghost predicate Learned(x: Spread, level: map<string, nat>, nodes: map<string, Node>) {
    && x.envelope.expiresAt > x.now
    && nodes.Keys == x.before.Keys
    && (forall n :: n in nodes ==>
          && nodes[n].subscriptions == x.before[n].subscriptions
          && MeshDedupe.Sound(nodes[n].dedupe)
          && Cached(x, x.before[n].dedupe, nodes[n].dedupe, n in level)
          && (Knows(x, nodes[n]) <==> n in level || n !in Unaware(x)))
    && (forall n :: n in level ==> n in nodes && n in Unaware(x))
  }

  ghost predicate WantsIt(x: Spread, n: string) {
    n in x.before && x.envelope.topic in x.before[n].subscriptions
  }

  /** The delivery to a node at the given distance: it records the hops left there. */
  ghost function DeliveryAt(x: Spread, n: string, level: int): Delivery {
    var left := if level <= x.envelope.hopLimit then x.envelope.hopLimit - level else 0;
    Delivery(n, x.envelope.topic, x.envelope.msgId, left)
  }

  /** One delivery for each accepted subscriber, with its remaining hops, and no other delivery. */
  ghost predicate DeliveredExactly(x: Spread, level: map<string, nat>, delivered: seq<Delivery>) {
    && (forall i :: 0 <= i < |delivered| ==>
          var n := delivered[i].nodeId;
          n in level && WantsIt(x, n) && delivered[i] == DeliveryAt(x, n, level[n]))
    && (forall i, j :: 0 <= i < j < |delivered| ==> delivered[i].nodeId != delivered[j].nodeId)
    && (forall n :: n in level && WantsIt(x, n) ==> DeliveryAt(x, n, level[n]) in delivered)
  }

  ghost function Degrees(links: map<string, set<string>>, nodes: set<string>): nat
    decreases |nodes|
  {
    if nodes == {} then 0 else
    var n :| n in nodes;
    |Neighbours(links, n)| + Degrees(links, nodes - {n})
  }

  /**
   Every copy made is accepted, refused or queued; every link end of an accepted node, but the one
   its own copy came by, carries a copy or meets the hop limit.
   */
  ghost predicate Counted(x: Spread, level: map<string, nat>, queue: seq<Arrival>, r: Report) {
    && 1 + r.forwarded == |level.Keys| + r.duplicates + |queue|
    && r.expired == 0 && r.unknown == 0
    && r.forwarded + r.hopLimited + |level.Keys|
         == Degrees(x.links, level.Keys) + (if level.Keys == {} then 0 else 1)
  }

  ghost predicate Spreading(x: Spread, f: Flood, level: map<string, nat>, c: nat) {
    && Started(x)
    && LevelsExact(x, level, c)
    && QueueOrdered(x, level, c, f.queue)
    && Closed(x, level, f.queue)
    && Learned(x, level, f.nodes)
    && DeliveredExactly(x, level, f.report.delivered)
    && Counted(x, level, f.queue, f.report)
  }

  lemma {:induction false} DegreesSplit(links: map<string, set<string>>, nodes: set<string>, n: string)
    requires n in nodes
    ensures Degrees(links, nodes) == |Neighbours(links, n)| + Degrees(links, nodes - {n})
    decreases |nodes|
  {
    var m :| m in nodes && Degrees(links, nodes) == |Neighbours(links, m)| + Degrees(links, nodes - {m});
    if m != n {
      DegreesSplit(links, nodes - {m}, n);
      DegreesSplit(links, nodes - {n}, m);
      assert nodes - {m} - {n} == nodes - {n} - {m};
    }
  }

  lemma {:induction false} DegreesGrow(links: map<string, set<string>>, some: set<string>, all: set<string>)
    requires some <= all
    ensures Degrees(links, some) <= Degrees(links, all)
    decreases |all|
  {
    if n :| n in all && n !in some {
      DegreesSplit(links, all, n);
      DegreesGrow(links, some, all - {n});
    } else {
      assert some == all;
    }
  }

  lemma {:induction false} ListingHasSize(order: seq<string>, s: set<string>)
    requires Lists(order, s)
    ensures |order| == |s|
    decreases |order|
  {
    if order == [] {
      assert s == {};
    } else {
      var x := order[0];
      assert x in s;
      assert Lists(order[1..], s - {x}) by {
        forall y
          ensures y in order[1..] <==> y in s - {x}
        {
          assert y in order <==> y == x || y in order[1..];
        }
      }
      ListingHasSize(order[1..], s - {x});
    }
  }

  // ----- steps of the search -----

  lemma ReachedFrom(x: Spread, n: string, k: nat) returns (m: string)
    requires k > 0 && AtDistance(x, n, k)
    ensures m in Ball(x, k - 1) && n in Neighbours(x.links, m) && n in Unaware(x)
  {
    hide Unaware;
    m :| m in Ball(x, k - 1) && n in Neighbours(x.links, m);
  }

  lemma BallOfZero(x: Spread, n: string)
    requires n in Ball(x, 0)
    ensures n == x.origin && n in Unaware(x)
  {
  }

  /** When the queue has left level c, every node at distance c has been accepted. */
  lemma LevelIsComplete(x: Spread, level: map<string, nat>, c: nat, queue: seq<Arrival>)
    requires LevelsExact(x, level, c) && Closed(x, level, queue)
    requires c <= x.envelope.hopLimit && forall a :: a in queue ==> LevelOf(x, a) > c
    ensures Ball(x, c) <= level.Keys
  {
    hide Unaware;
    hide Ball;
    forall n | n in Ball(x, c)
      ensures n in level
    {
      if c == 0 {
        BallOfZero(x, n);
      } else if n !in Ball(x, c - 1) {
        var m := ReachedFrom(x, n, c);
        DistanceIsLeast(x, m, level[m], c - 1);
        assert n in level || OnItsWay(x, queue, n, level[m] + 1);
      }
    }
  }

  lemma NextLevel(x: Spread, f: Flood, level: map<string, nat>, c: nat)
    requires Spreading(x, f, level, c)
    requires f.queue != [] && LevelOf(x, f.queue[0]) == c + 1
    ensures Spreading(x, f, level, c + 1)
  {
    hide Unaware;
    hide Closed;
    hide Learned;
    hide DeliveredExactly;
    hide Started;
    assert Queued(x, level, c, f.queue[0]);
    forall i | 0 <= i < |f.queue|
      ensures LevelOf(x, f.queue[i]) == c + 1
    {
      assert Queued(x, level, c, f.queue[i]);
      assert LevelOf(x, f.queue[0]) <= LevelOf(x, f.queue[i]);
    }
    LevelIsComplete(x, level, c, f.queue);
  }

  /** A queued copy is as valid as the published envelope and has its key. */
  lemma CopyIsValid(x: Spread, e: Envelope)
    requires Validate(x.envelope, x.now) == None
    requires e == x.envelope.(hopLimit := e.hopLimit) && e.hopLimit <= x.envelope.hopLimit
    ensures Validate(e, x.now) == None && KeyOf(e) == KeyOf(x.envelope)
  {
    hide IsValidTopic;
    hide NormalizeMessageId;
  }

  /** Offering the message to a node: it is accepted when the node does not know it, and known afterwards. */
  lemma OfferingTeaches(x: Spread, node: Node, e: Envelope)
    requires MeshDedupe.Sound(node.dedupe) && Validate(e, x.now) == None
    requires KeyOf(e) == KeyOf(x.envelope) && e.expiresAt == x.envelope.expiresAt
    ensures Remembered(node.dedupe, e, x.now).Success?
    ensures var (cache, accepted) := Remembered(node.dedupe, e, x.now).value;
            && (accepted <==> !Knows(x, node))
            && Knows(x, node.(dedupe := cache))
            && MeshDedupe.Sound(cache)
            && Cached(x, node.dedupe, cache, accepted)
  {
    hide Validate;
    RememberingIsSound(node.dedupe, e, x.now);
    RememberedStaysKnown(node.dedupe, e, x.now);
  }

  lemma LearnedAfter(x: Spread, level: map<string, nat>, level': map<string, nat>, nodes: map<string, Node>,
                     to: string, node: Node)
    requires Learned(x, level, nodes) && to in nodes
    requires level'.Keys == level.Keys || level'.Keys == level.Keys + {to}
    requires to in level' || to !in Unaware(x)
    requires to in level' ==> to in Unaware(x)
    requires node.subscriptions == nodes[to].subscriptions && MeshDedupe.Sound(node.dedupe) && Knows(x, node)
    requires Cached(x, nodes[to].dedupe, node.dedupe, !Knows(x, nodes[to]))
    ensures Learned(x, level', nodes[to := node])
  {
    hide Unaware;
    hide Knows;
    hide MeshDedupe.Sound;
    hide Cached;
    var took := !Knows(x, nodes[to]);
    CachedTwice(x, x.before[to].dedupe, nodes[to].dedupe, node.dedupe, to in level, took);
    assert (to in level || took) == (to in level');
  }

  /** A copy that is refused leaves the search as it was, one copy shorter. */
  lemma RefusedCloses(x: Spread, level: map<string, nat>, queue: seq<Arrival>)
    requires Closed(x, level, queue) && queue != []
    requires queue[0].to in level || queue[0].to !in Unaware(x)
    ensures Closed(x, level, queue[1..])
  {
    hide Unaware;
    forall n, m | n in level && m in Neighbours(x.links, n) && m in Unaware(x) && level[n] < x.envelope.hopLimit
      ensures m in level || OnItsWay(x, queue[1..], m, level[n] + 1)
    {
      if m !in level {
        var a :| a in queue && a.to == m && LevelOf(x, a) == level[n] + 1;
        assert a in queue[1..];
      }
    }
  }

  /** The flood after a node that does not know the message has taken it. */
  function Taken(f: Flood, a: Arrival, node: Node, order: seq<string>): Flood {
    var delivery := Delivery(a.to, a.envelope.topic, a.envelope.msgId, a.envelope.hopLimit);
    var delivered := if a.envelope.topic in node.subscriptions then f.report.delivered + [delivery]
                     else f.report.delivered;
    Forwarded(Flood(f.nodes[a.to := node], f.queue, f.report.(delivered := delivered)), a, order)
  }

  function Repeated(f: Flood, a: Arrival, node: Node): Flood {
    f.(nodes := f.nodes[a.to := node], report := f.report.(duplicates := f.report.duplicates + 1))
  }

  /** The arrival of a valid copy at an existing node. */
  lemma ArrivalEffect(x: Spread, f: Flood, a: Arrival, order: seq<string>) returns (node: Node)
    requires a.to in f.nodes && MeshDedupe.Sound(f.nodes[a.to].dedupe)
    requires Validate(a.envelope, x.now) == None
    requires KeyOf(a.envelope) == KeyOf(x.envelope) && a.envelope.expiresAt == x.envelope.expiresAt
    ensures node.subscriptions == f.nodes[a.to].subscriptions && MeshDedupe.Sound(node.dedupe) && Knows(x, node)
    ensures Cached(x, f.nodes[a.to].dedupe, node.dedupe, !Knows(x, f.nodes[a.to]))
    ensures Arrived(f, x.now, a, order) ==
              if Knows(x, f.nodes[a.to]) then Repeated(f, a, node) else Taken(f, a, node, order)
  {
    hide Validate;
    OfferingTeaches(x, f.nodes[a.to], a.envelope);
    hide Remembered;
    hide Knows;
    hide Cached;
    hide MeshDedupe.Sound;
    node := f.nodes[a.to].(dedupe := Remembered(f.nodes[a.to].dedupe, a.envelope, x.now).value.0);
  }

  /** The first copy in the queue is a valid copy for an existing node. */
  lemma FrontIsValid(x: Spread, f: Flood, level: map<string, nat>, c: nat)
    requires Spreading(x, f, level, c) && f.queue != []
    ensures var a := f.queue[0];
            && Queued(x, level, c, a)
            && a.to in f.nodes && MeshDedupe.Sound(f.nodes[a.to].dedupe)
            && a.to in x.before && f.nodes[a.to].subscriptions == x.before[a.to].subscriptions
            && a.from.value in Neighbours(x.links, a.to)
            && (a.to in level ==> a.to in Unaware(x))
            && (Knows(x, f.nodes[a.to]) <==> a.to in level || a.to !in Unaware(x))
            && Validate(a.envelope, x.now) == None
            && KeyOf(a.envelope) == KeyOf(x.envelope) && a.envelope.expiresAt == x.envelope.expiresAt
  {
    hide Cached;
    hide Validate;
    hide Unaware;
    hide Knows;
    hide MeshDedupe.Sound;
    hide LevelsExact;
    hide Closed;
    hide DeliveredExactly;
    hide Counted;
    var a := f.queue[0];
    assert Queued(x, level, c, a);
    CopyIsValid(x, a.envelope);
  }

  lemma RefusedHolds(x: Spread, f: Flood, level: map<string, nat>, c: nat, node: Node)
    requires Spreading(x, f, level, c) && f.queue != [] && LevelOf(x, f.queue[0]) == c
    requires f.queue[0].to in level <==> f.queue[0].to in Unaware(x)
    requires f.queue[0].to in f.nodes && node.subscriptions == f.nodes[f.queue[0].to].subscriptions
    requires MeshDedupe.Sound(node.dedupe) && Knows(x, node)
    requires Cached(x, f.nodes[f.queue[0].to].dedupe, node.dedupe, !Knows(x, f.nodes[f.queue[0].to]))
    ensures Spreading(x, Repeated(f.(queue := f.queue[1..]), f.queue[0], node), level, c)
  {
    hide Cached;
    hide Started;
    hide Unaware;
    hide Knows;
    hide MeshDedupe.Sound;
    hide Learned;
    hide Closed;
    hide DeliveredExactly;
    hide LevelsExact;
    LearnedAfter(x, level, level, f.nodes, f.queue[0].to, node);
    RefusedCloses(x, level, f.queue);
  }

  lemma NeighbourIsOneFurther(x: Spread, m: string, n: string, k: nat)
    requires k > 0 && m in Ball(x, k - 1) && n in Neighbours(x.links, m) && n in Unaware(x)
    ensures n in Ball(x, k)
  {
    hide Unaware;
  }

  lemma AcceptedDistance(x: Spread, level: map<string, nat>, c: nat, a: Arrival)
    requires LevelsExact(x, level, c) && Queued(x, level, c, a) && LevelOf(x, a) == c
    requires a.to !in level && a.to in Unaware(x)
    ensures LevelsExact(x, level[a.to := c], c)
  {
    hide Unaware;
    hide Ball;
    assert AtDistance(x, a.from.value, c - 1);
    NeighbourIsOneFurther(x, a.from.value, a.to, c);
    assert a.to !in Ball(x, c - 1);
    assert AtDistance(x, a.to, c);
  }

  /** The copies an accepted node sends on are all on their way. */
  lemma AcceptedCloses(x: Spread, level: map<string, nat>, c: nat, queue: seq<Arrival>, order: seq<string>,
                       queue': seq<Arrival>)
    requires Closed(x, level, queue) && queue != [] && Queued(x, level, c, queue[0]) && LevelOf(x, queue[0]) == c
    requires Lists(order, Onward(x.links, queue[0]))
    requires var a := queue[0];
             queue' == queue[1..] + (if a.envelope.hopLimit == 0 then []
                                     else Sends(a.to, order, a.envelope.(hopLimit := a.envelope.hopLimit - 1)))
    ensures Closed(x, level[queue[0].to := c], queue')
  {
    hide Unaware;
    var a := queue[0];
    var level' := level[a.to := c];
    assert a.from.Some? && a.from.value in level;
    assert a.envelope.hopLimit == x.envelope.hopLimit - c;
    forall n, m | n in level' && m in Neighbours(x.links, n) && m in Unaware(x) && level'[n] < x.envelope.hopLimit
      ensures m in level' || OnItsWay(x, queue', m, level'[n] + 1)
    {
      if m !in level' {
        if n == a.to {
          assert m in order;
          var i :| 0 <= i < |order| && order[i] == m;
          var sends := Sends(a.to, order, a.envelope.(hopLimit := a.envelope.hopLimit - 1));
          assert sends[i] in queue';
        } else {
          var b :| b in queue && b.to == m && LevelOf(x, b) == level[n] + 1;
          assert b in queue[1..];
        }
      }
    }
  }

  lemma AcceptedQueues(x: Spread, level: map<string, nat>, c: nat, queue: seq<Arrival>, order: seq<string>,
                       queue': seq<Arrival>)
    requires QueueOrdered(x, level, c, queue) && queue != [] && LevelOf(x, queue[0]) == c
    requires queue[0].to !in level
    requires Lists(order, Onward(x.links, queue[0]))
    requires var a := queue[0];
             queue' == queue[1..] + (if a.envelope.hopLimit == 0 then []
                                     else Sends(a.to, order, a.envelope.(hopLimit := a.envelope.hopLimit - 1)))
    ensures QueueOrdered(x, level[queue[0].to := c], c, queue')
  {
    var a := queue[0];
    var level' := level[a.to := c];
    assert Queued(x, level, c, a);
    forall i | 0 <= i < |queue'|
      ensures Queued(x, level', c, queue'[i])
      ensures i >= |queue| - 1 ==> LevelOf(x, queue'[i]) == c + 1
    {
      if i < |queue| - 1 {
        assert queue'[i] == queue[i + 1];
        assert Queued(x, level, c, queue[i + 1]);
      } else {
        assert order[i - (|queue| - 1)] in order;
      }
    }
    forall i, j | 0 <= i < j < |queue'|
      ensures LevelOf(x, queue'[i]) <= LevelOf(x, queue'[j])
    {
      if j < |queue| - 1 {
        assert queue'[i] == queue[i + 1] && queue'[j] == queue[j + 1];
      } else {
        assert Queued(x, level', c, queue'[i]);
      }
    }
  }

  lemma AcceptedDelivers(x: Spread, level: map<string, nat>, c: nat, delivered: seq<Delivery>, to: string)
    requires DeliveredExactly(x, level, delivered) && to !in level && c <= x.envelope.hopLimit
    ensures var delivered' := if WantsIt(x, to) then delivered + [DeliveryAt(x, to, c)] else delivered;
            DeliveredExactly(x, level[to := c], delivered')
  {
    var level' := level[to := c];
    var delivered' := if WantsIt(x, to) then delivered + [DeliveryAt(x, to, c)] else delivered;
    forall n | n in level' && WantsIt(x, n)
      ensures DeliveryAt(x, n, level'[n]) in delivered'
    {
      if n == to {
        assert delivered'[|delivered|] == DeliveryAt(x, to, c);
      } else {
        assert DeliveryAt(x, n, level[n]) in delivered;
      }
    }
  }

  lemma AcceptedCounts(x: Spread, level: map<string, nat>, c: nat, queue: seq<Arrival>, r: Report,
                       queue': seq<Arrival>, r': Report, a: Arrival, order: seq<string>)
    requires Counted(x, level, queue, r) && a.to !in level && queue != []
    requires Lists(order, Onward(x.links, a))
    requires a.from.Some? && a.from.value in Neighbours(x.links, a.to) && level.Keys != {}
    requires r'.duplicates == r.duplicates && r'.expired == r.expired && r'.unknown == r.unknown
    requires || (r'.forwarded == r.forwarded && r'.hopLimited == r.hopLimited + |order| && |queue'| == |queue| - 1)
             || (r'.forwarded == r.forwarded + |order| && r'.hopLimited == r.hopLimited &&
                 |queue'| == |queue| - 1 + |order|)
    ensures Counted(x, level[a.to := c], queue', r')
  {
    var keys := level[a.to := c].Keys;
    assert keys == level.Keys + {a.to};
    DegreesSplit(x.links, keys, a.to);
    assert keys - {a.to} == level.Keys;
    ListingHasSize(order, Onward(x.links, a));
    assert Onward(x.links, a) == Neighbours(x.links, a.to) - {a.from.value};
  }

  lemma AcceptedHolds(x: Spread, f: Flood, level: map<string, nat>, c: nat, order: seq<string>, node: Node)
    requires Spreading(x, f, level, c) && f.queue != [] && LevelOf(x, f.queue[0]) == c
    requires f.queue[0].to !in level && f.queue[0].to in Unaware(x)
    requires Lists(order, Onward(x.links, f.queue[0]))
    requires f.queue[0].to in f.nodes && node.subscriptions == f.nodes[f.queue[0].to].subscriptions
    requires f.queue[0].from.Some? && f.queue[0].from.value in Neighbours(x.links, f.queue[0].to)
    requires f.queue[0].to in x.before && node.subscriptions == x.before[f.queue[0].to].subscriptions
    requires MeshDedupe.Sound(node.dedupe) && Knows(x, node)
    requires Cached(x, f.nodes[f.queue[0].to].dedupe, node.dedupe, !Knows(x, f.nodes[f.queue[0].to]))
    ensures Spreading(x, Taken(f.(queue := f.queue[1..]), f.queue[0], node, order), level[f.queue[0].to := c], c)
  {
    hide Cached;
    hide Started;
    hide Unaware;
    hide Knows;
    hide MeshDedupe.Sound;
    hide Learned;
    hide LevelsExact;
    hide Closed;
    hide QueueOrdered;
    hide DeliveredExactly;
    hide Counted;
    var a := f.queue[0];
    var f' := Taken(f.(queue := f.queue[1..]), a, node, order);
    FrontIsQueued(x, level, c, f.queue);
    LearnedAfter(x, level, level[a.to := c], f.nodes, a.to, node);
    AcceptedDistance(x, level, c, a);
    AcceptedCloses(x, level, c, f.queue, order, f'.queue);
    AcceptedQueues(x, level, c, f.queue, order, f'.queue);
    AcceptedDelivers(x, level, c, f.report.delivered, a.to);
    AcceptedCounts(x, level, c, f.queue, f.report, f'.queue, f'.report, a, order);
  }

  lemma FrontIsQueued(x: Spread, level: map<string, nat>, c: nat, queue: seq<Arrival>)
    requires QueueOrdered(x, level, c, queue) && queue != []
    ensures Queued(x, level, c, queue[0])
  {
  }

  /** One turn of the loop of `publish`: the search stays exact, and one copy is refused or one node accepts. */
  lemma TurnHolds(x: Spread, f: Flood, level: map<string, nat>, c: nat, order: seq<string>)
    returns (level': map<string, nat>, c': nat)
    requires Spreading(x, f, level, c) && f.queue != []
    requires Lists(order, Onward(x.links, f.queue[0]))
    ensures var f' := Arrived(f.(queue := f.queue[1..]), x.now, f.queue[0], order);
            && Spreading(x, f', level', c')
            && ((level' == level && f'.queue == f.queue[1..]) || level'.Keys > level.Keys)
    ensures level'.Keys <= Unaware(x)
  {
    hide Cached;
    hide Unaware;
    hide Started;
    hide Arrived;
    hide Spreading;
    hide Validate;
    hide Knows;
    hide MeshDedupe.Sound;
    c' := c;
    FrontIsValid(x, f, level, c);
    if LevelOf(x, f.queue[0]) == c + 1 {
      NextLevel(x, f, level, c);
      c' := c + 1;
    }
    var a := f.queue[0];
    var node := ArrivalEffect(x, f.(queue := f.queue[1..]), a, order);
    if a.to in level || a.to !in Unaware(x) {
      level' := level;
      RefusedHolds(x, f, level, c', node);
    } else {
      level' := level[a.to := c'];
      AcceptedHolds(x, f, level, c', order, node);
    }
    OnlyUnaware(x, Arrived(f.(queue := f.queue[1..]), x.now, a, order), level', c');
  }

  lemma OnlyUnaware(x: Spread, f: Flood, level: map<string, nat>, c: nat)
    requires Spreading(x, f, level, c)
    ensures level.Keys <= Unaware(x)
  {
    hide Unaware;
    hide Started;
  }

  // ----- a whole publish -----

  const NOTHING := Report([], 0, 0, 0, 0, 0)

  ghost function First(x: Spread): Arrival {
    Arrival(x.origin, None, x.envelope)
  }

  lemma ValidIsLive(e: Envelope, now: nat)
    requires Validate(e, now) == None
    ensures e.expiresAt > now
  {
    hide IsValidTopic;
    hide NormalizeMessageId;
  }

  lemma NothingLearnedYet(x: Spread)
    requires Started(x)
    ensures Learned(x, map[], x.before)
  {
    hide Validate;
    hide MeshDedupe.Sound;
    ValidIsLive(x.envelope, x.now);
  }

  lemma OriginHolds(x: Spread, order: seq<string>, node: Node)
    requires Started(x) && Lists(order, Onward(x.links, First(x))) && x.origin in Unaware(x)
    requires node.subscriptions == x.before[x.origin].subscriptions && MeshDedupe.Sound(node.dedupe) && Knows(x, node)
    requires Cached(x, x.before[x.origin].dedupe, node.dedupe, !Knows(x, x.before[x.origin]))
    ensures Spreading(x, Taken(Flood(x.before, [], NOTHING), First(x), node, order), map[x.origin := 0], 0)
  {
    hide Cached;
    hide Validate;
    hide Unaware;
    hide MeshDedupe.Sound;
    hide Knows;
    hide Learned;
    var level := map[x.origin := 0];
    var f := Taken(Flood(x.before, [], NOTHING), First(x), node, order);
    NothingLearnedYet(x);
    LearnedAfter(x, map[], level, x.before, x.origin, node);
    OriginQueue(x, order, f.queue);
    OriginDelivers(x, f.report.delivered);
    OriginCounts(x, order, f.queue, f.report);
  }

  lemma OriginQueue(x: Spread, order: seq<string>, queue: seq<Arrival>)
    requires Started(x) && Lists(order, Onward(x.links, First(x))) && x.origin in Unaware(x)
    requires queue == if x.envelope.hopLimit == 0 then []
                      else Sends(x.origin, order, x.envelope.(hopLimit := x.envelope.hopLimit - 1))
    ensures LevelsExact(x, map[x.origin := 0], 0)
    ensures QueueOrdered(x, map[x.origin := 0], 0, queue) && Closed(x, map[x.origin := 0], queue)
  {
    hide Validate;
    hide Unaware;
    hide MeshDedupe.Sound;
    var level := map[x.origin := 0];
    forall m | m in Neighbours(x.links, x.origin) && 0 < x.envelope.hopLimit
      ensures OnItsWay(x, queue, m, 1)
    {
      assert m in order;
      var i :| 0 <= i < |order| && order[i] == m;
      assert queue[i] in queue;
    }
    forall i | 0 <= i < |queue|
      ensures Queued(x, level, 0, queue[i])
    {
      assert order[i] in order;
    }
  }

  lemma OriginDelivers(x: Spread, delivered: seq<Delivery>)
    requires delivered == if WantsIt(x, x.origin) then [DeliveryAt(x, x.origin, 0)] else []
    ensures DeliveredExactly(x, map[x.origin := 0], delivered)
  {
    if WantsIt(x, x.origin) {
      assert delivered[0] == DeliveryAt(x, x.origin, 0);
    }
  }

  lemma OriginCounts(x: Spread, order: seq<string>, queue: seq<Arrival>, r: Report)
    requires Lists(order, Onward(x.links, First(x)))
    requires r.duplicates == r.expired == r.unknown == 0 && r.forwarded == |queue|
    requires (queue == [] && r.hopLimited == |order|) || (|queue| == |order| && r.hopLimited == 0)
    ensures Counted(x, map[x.origin := 0], queue, r)
  {
    var keys := map[x.origin := 0].Keys;
    assert keys == {x.origin};
    DegreesSplit(x.links, keys, x.origin);
    assert keys - {x.origin} == {};
    ListingHasSize(order, Onward(x.links, First(x)));
    assert Onward(x.links, First(x)) == Neighbours(x.links, x.origin);
  }

  lemma KnownOriginHolds(x: Spread, order: seq<string>, node: Node)
    requires Started(x) && x.origin !in Unaware(x)
    requires node.subscriptions == x.before[x.origin].subscriptions && MeshDedupe.Sound(node.dedupe) && Knows(x, node)
    requires Cached(x, x.before[x.origin].dedupe, node.dedupe, !Knows(x, x.before[x.origin]))
    ensures Spreading(x, Repeated(Flood(x.before, [], NOTHING), First(x), node), map[], 0)
  {
    hide Cached;
    hide Validate;
    hide Unaware;
    hide MeshDedupe.Sound;
    hide Knows;
    hide Learned;
    NothingLearnedYet(x);
    LearnedAfter(x, map[], map[], x.before, x.origin, node);
  }

  /** The first call of `accept_at_node` starts the search at the origin. */
  lemma StartHolds(x: Spread, order: seq<string>) returns (level: map<string, nat>)
    requires Started(x) && Lists(order, Onward(x.links, First(x)))
    ensures Spreading(x, Arrived(Flood(x.before, [], NOTHING), x.now, First(x), order), level, 0)
    ensures level.Keys <= Unaware(x)
  {
    hide Cached;
    hide Validate;
    hide MeshDedupe.Sound;
    hide Spreading;
    hide Arrived;
    var f := Flood(x.before, [], NOTHING);
    var node := ArrivalEffect(x, f, First(x), order);
    assert Knows(x, x.before[x.origin]) <==> x.origin !in Unaware(x);
    if x.origin in Unaware(x) {
      level := map[x.origin := 0];
      OriginHolds(x, order, node);
    } else {
      level := map[];
      KnownOriginHolds(x, order, node);
    }
  }

  /** When the queue is empty, the accepted nodes are exactly the ball of the hop limit. */
  lemma {:induction false} BallIsAccepted(x: Spread, level: map<string, nat>, c: nat, k: nat)
    requires LevelsExact(x, level, c) && Closed(x, level, []) && k <= x.envelope.hopLimit
    ensures Ball(x, k) <= level.Keys
  {
    hide Unaware;
    hide Ball;
    if k > 0 {
      BallIsAccepted(x, level, c, k - 1);
      forall n | n in Ball(x, k)
        ensures n in level
      {
        if n !in Ball(x, k - 1) {
          var m := ReachedFrom(x, n, k);
          DistanceIsLeast(x, m, level[m], k - 1);
        }
      }
    } else {
      forall n | n in Ball(x, 0)
        ensures n in level
      {
        BallOfZero(x, n);
      }
    }
  }

  /** What publishing a message did, in terms of distances alone. */
  ghost predicate Published(x: Spread, nodes: map<string, Node>, r: Report) {
    var h := x.envelope.hopLimit;
    && (forall n, k: nat :: WantsIt(x, n) && k <= h && AtDistance(x, n, k) ==> DeliveryAt(x, n, k) in r.delivered)
    && (forall i :: 0 <= i < |r.delivered| ==> DeliveredRightly(x, r.delivered[i]))
    && (forall i, j :: 0 <= i < j < |r.delivered| ==> r.delivered[i].nodeId != r.delivered[j].nodeId)
    && 1 + r.forwarded == |Ball(x, h)| + r.duplicates
    && r.expired == 0 && r.unknown == 0
    && r.forwarded + r.hopLimited + |Ball(x, h)|
         == Degrees(x.links, Ball(x, h)) + (if Ball(x, h) == {} then 0 else 1)
    && nodes.Keys == x.before.Keys
    && (forall n :: n in nodes ==>
          && nodes[n].subscriptions == x.before[n].subscriptions
          && MeshDedupe.Sound(nodes[n].dedupe)
          && Cached(x, x.before[n].dedupe, nodes[n].dedupe, n in Ball(x, h))
          && (Knows(x, nodes[n]) <==> n in Ball(x, h) || Knows(x, x.before[n])))
  }

  ghost predicate DeliveredRightly(x: Spread, d: Delivery) {
    && WantsIt(x, d.nodeId)
    && exists k: nat :: k <= x.envelope.hopLimit && AtDistance(x, d.nodeId, k) && d == DeliveryAt(x, d.nodeId, k)
  }

  lemma AcceptedIsBall(x: Spread, level: map<string, nat>, c: nat)
    requires LevelsExact(x, level, c) && Closed(x, level, [])
    ensures level.Keys == Ball(x, x.envelope.hopLimit)
  {
    hide Unaware;
    BallIsAccepted(x, level, c, x.envelope.hopLimit);
    forall n | n in level
      ensures n in Ball(x, x.envelope.hopLimit)
    {
      BallsGrow(x, level[n], x.envelope.hopLimit);
    }
  }

  lemma DeliveriesAreRight(x: Spread, level: map<string, nat>, c: nat, delivered: seq<Delivery>)
    requires LevelsExact(x, level, c) && DeliveredExactly(x, level, delivered)
    requires level.Keys == Ball(x, x.envelope.hopLimit)
    ensures forall n, k: nat :: WantsIt(x, n) && k <= x.envelope.hopLimit && AtDistance(x, n, k) ==>
              DeliveryAt(x, n, k) in delivered
    ensures forall i :: 0 <= i < |delivered| ==> DeliveredRightly(x, delivered[i])
  {
    hide Ball;
    hide Unaware;
    forall n, k: nat | WantsIt(x, n) && k <= x.envelope.hopLimit && AtDistance(x, n, k)
      ensures DeliveryAt(x, n, k) in delivered
    {
      BallsGrow(x, k, x.envelope.hopLimit);
      DistanceIsLeast(x, n, k, level[n]);
      DistanceIsLeast(x, n, level[n], k);
    }
    forall i | 0 <= i < |delivered|
      ensures DeliveredRightly(x, delivered[i])
    {
      assert AtDistance(x, delivered[i].nodeId, level[delivered[i].nodeId]);
    }
  }

  lemma LearnedIsBall(x: Spread, level: map<string, nat>, nodes: map<string, Node>)
    requires Learned(x, level, nodes) && Started(x)
    ensures forall n :: n in nodes ==> (Knows(x, nodes[n]) <==> n in level || Knows(x, x.before[n]))
  {
    hide Cached;
    hide Validate;
    hide MeshDedupe.Sound;
  }

  lemma FinishHolds(x: Spread, f: Flood, level: map<string, nat>, c: nat)
    requires Spreading(x, f, level, c) && f.queue == []
    ensures Published(x, f.nodes, f.report)
  {
    hide Cached;
    hide Validate;
    hide Unaware;
    hide MeshDedupe.Sound;
    hide Knows;
    hide LevelsExact;
    hide Closed;
    hide Ball;
    hide WantsIt;
    hide AtDistance;
    hide DeliveredRightly;
    AcceptedIsBall(x, level, c);
    DeliveriesAreRight(x, level, c, f.report.delivered);
    LearnedIsBall(x, level, f.nodes);
  }

  // ----- the simulator -----

  class MeshSimulator {
    var nodes: map<string, Node>
    var links: map<string, set<string>>
    var nowMs: nat

    ghost function State(): Topology
      reads this
    {
      Topology(nodes, links, nowMs)
    }

    ghost predicate Valid()
      reads this
    {
      Connected(State())
    }

    constructor (now: nat)
      ensures Valid() && State() == Topology(map[], map[], now)
    {
      nodes, links, nowMs := map[], map[], now;
    }

    method AddNode(nodeId: string) returns (failed: Option<MeshError>)
      requires Valid()
      modifies this
      ensures Valid()
      ensures match NormalizeNodeId(nodeId)
              case None => failed == Some(UnknownNode) && State() == old(State())
              case Some(id) => failed == None && State() == Added(old(State()), id)
    {
      var id := NormalizeNodeId(nodeId);
      if id.None? {
        return Some(UnknownNode);
      }
      AddingKeepsConnected(State(), id.value);
      if id.value !in nodes {
        nodes := nodes[id.value := Node({}, EMPTY)];
      }
      if id.value !in links {
        links := links[id.value := {}];
      }
      failed := None;
    }

    method Subscribe(nodeId: string, topic: string) returns (failed: Option<MeshError>)
      requires Valid()
      modifies this
      ensures Valid()
      ensures var id := NormalizeNodeId(nodeId);
              if id.None? || id.value !in old(nodes) then failed == Some(UnknownNode) && State() == old(State())
              else if !IsValidTopic(topic) then failed == Some(InvalidTopic) && State() == old(State())
              else failed == None && State() == Subscribed(old(State()), id.value, topic)
    {
      var id := NormalizeNodeId(nodeId);
      if id.None? || id.value !in nodes {
        return Some(UnknownNode);
      }
      if !IsValidTopic(topic) {
        return Some(InvalidTopic);
      }
      SubscribingKeepsConnected(State(), id.value, topic);
      var node := nodes[id.value];
      nodes := nodes[id.value := node.(subscriptions := node.subscriptions + {topic})];
      failed := None;
    }

    method LinkBidirectional(leftId: string, rightId: string) returns (failed: Option<MeshError>)
      requires Valid()
      modifies this
      ensures Valid()
      ensures var left, right := NormalizeNodeId(leftId), NormalizeNodeId(rightId);
              if left.None? || right.None? || left.value !in old(nodes) || right.value !in old(nodes)
              then failed == Some(UnknownNode) && State() == old(State())
              else failed == None && State() == Linked(old(State()), left.value, right.value)
    {
      var left, right := NormalizeNodeId(leftId), NormalizeNodeId(rightId);
      if left.None? || right.None? || left.value !in nodes || right.value !in nodes {
        return Some(UnknownNode);
      }
      LinkingKeepsConnected(State(), left.value, right.value);
      links := links[left.value := Neighbours(links, left.value) + {right.value}];
      links := links[right.value := Neighbours(links, right.value) + {left.value}];
      failed := None;
    }

    method UnlinkBidirectional(leftId: string, rightId: string) returns (failed: Option<MeshError>)
      requires Valid()
      modifies this
      ensures Valid()
      ensures var left, right := NormalizeNodeId(leftId), NormalizeNodeId(rightId);
              if left.None? || right.None? || left.value !in old(nodes) || right.value !in old(nodes)
              then failed == Some(UnknownNode) && State() == old(State())
              else failed == None && State() == Unlinked(old(State()), left.value, right.value)
    {
      var left, right := NormalizeNodeId(leftId), NormalizeNodeId(rightId);
      if left.None? || right.None? || left.value !in nodes || right.value !in nodes {
        return Some(UnknownNode);
      }
      UnlinkingKeepsConnected(State(), left.value, right.value);
      if left.value in links {
        links := links[left.value := links[left.value] - {right.value}];
      }
      if right.value in links {
        links := links[right.value := links[right.value] - {left.value}];
      }
      failed := None;
    }

    method RemoveNode(nodeId: string) returns (failed: Option<MeshError>)
      requires Valid()
      modifies this
      ensures Valid()
      ensures var id := NormalizeNodeId(nodeId);
              if id.None? || id.value !in old(nodes) then failed == Some(UnknownNode) && State() == old(State())
              else failed == None && State() == Removed(old(State()), id.value)
    {
      hide NormalizeNodeId;
      hide Connected;
      var id := NormalizeNodeId(nodeId);
      if id.None? || id.value !in nodes {
        return Some(UnknownNode);
      }
      RemovingKeepsConnected(State(), id.value);
      nodes := nodes - {id.value};
      links := links - {id.value};
      var rest := links.Keys;
      while rest != {}
        invariant nodes == old(nodes) - {id.value} && nowMs == old(nowMs)
        invariant rest <= links.Keys == old(links).Keys - {id.value}
        invariant forall n :: n in links ==>
                    links[n] == if n in rest then old(links)[n] else old(links)[n] - {id.value}
        decreases rest
      {
        var n :| n in rest;
        links := links[n := links[n] - {id.value}];
        rest := rest - {n};
      }
      assert links == Removed(old(State()), id.value).links;
      failed := None;
    }

    method SetNowMs(now: nat)
      requires Valid()
      modifies this
      ensures Valid() && State() == Ticked(old(State()), now)
    {
      hide Pruned;
      hide Connected;
      TickingKeepsConnected(State(), now);
      nowMs := now;
      var rest := nodes.Keys;
      while rest != {}
        invariant rest <= nodes.Keys == old(nodes).Keys
        invariant forall n :: n in nodes ==>
                    nodes[n] == if n in rest then old(nodes)[n]
                                else old(nodes)[n].(dedupe := Pruned(old(nodes)[n].dedupe, now))
        invariant nowMs == now && links == old(links)
        decreases rest
      {
        var n :| n in rest;
        nodes := nodes[n := nodes[n].(dedupe := Pruned(nodes[n].dedupe, now))];
        rest := rest - {n};
      }
      assert nodes == Ticked(old(State()), now).nodes;
    }

    /** One arrival; `order` is the order in which the set of neighbours happened to be listed. */
    method AcceptAtNode(a: Arrival, queue: seq<Arrival>, report: Report)
      returns (queue': seq<Arrival>, report': Report, ghost order: seq<string>)
      modifies this`nodes
      ensures Lists(order, Onward(links, a))
      ensures Flood(nodes, queue', report') == Arrived(Flood(old(nodes), queue, report), nowMs, a, order)
    {
      hide Validate;
      hide Pruned;
      queue', report' := queue, report;
      var neighbours := ListOnward(a);
      order := neighbours;
      if Validate(a.envelope, nowMs).Some? {
        if a.envelope.expiresAt <= nowMs {
          report' := report'.(expired := report'.expired + 1);
        }
        return;
      }
      if a.to !in nodes {
        report' := report'.(unknown := report'.unknown + 1);
        return;
      }
      var node := nodes[a.to];
      var remembered := Remembered(node.dedupe, a.envelope, nowMs);
      if remembered.Failure? {
        return;
      }
      nodes := nodes[a.to := node.(dedupe := remembered.value.0)];
      if !remembered.value.1 {
        report' := report'.(duplicates := report'.duplicates + 1);
        return;
      }
      if a.envelope.topic in node.subscriptions {
        var delivery := Delivery(a.to, a.envelope.topic, a.envelope.msgId, a.envelope.hopLimit);
        report' := report'.(delivered := report'.delivered + [delivery]);
      }
      if neighbours == [] {
        assert Sends(a.to, order, a.envelope) == [];
        return;
      }
      var next := NextHop(a.envelope);
      if next.None? {
        report' := report'.(hopLimited := report'.hopLimited + |neighbours|);
        return;
      }
      ghost var before, counted := queue', report';
      for i := 0 to |neighbours|
        invariant queue' == before + Sends(a.to, neighbours[..i], next.value)
        invariant report' == counted.(forwarded := counted.forwarded + i)
      {
        queue' := queue' + [Arrival(neighbours[i], Some(a.to), next.value)];
        report' := report'.(forwarded := report'.forwarded + 1);
        assert Sends(a.to, neighbours[..i + 1], next.value)
            == Sends(a.to, neighbours[..i], next.value) + [Arrival(neighbours[i], Some(a.to), next.value)];
      }
      assert neighbours[..|neighbours|] == neighbours;
    }

    /** The neighbours other than the sender, in whatever order the set yields them. */
    method ListOnward(a: Arrival) returns (neighbours: seq<string>)
      ensures Lists(neighbours, Onward(links, a))
    {
      neighbours := [];
      var rest := Onward(links, a);
      while rest != {}
        invariant NoDuplicates(neighbours)
        invariant forall n :: n in Onward(links, a) <==> n in rest || n in neighbours
        invariant forall n :: n in neighbours ==> n !in rest
        decreases rest
      {
        var n :| n in rest;
        neighbours := neighbours + [n];
        rest := rest - {n};
      }
    }

    method Publish(originId: string, e: Envelope) returns (r: Result<Report, MeshError>)
      requires Valid()
      modifies this`nodes
      ensures Valid()
      ensures match r
              case Failure(error) =>
                && nodes == old(nodes)
                && if Validate(e, nowMs).Some? then Validate(e, nowMs) == Some(error)
                   else error == UnknownNode &&
                        (NormalizeNodeId(originId).None? || NormalizeNodeId(originId).value !in nodes)
              case Success(report) =>
                && Validate(e, nowMs).None?
                && NormalizeNodeId(originId).Some? && NormalizeNodeId(originId).value in old(nodes)
                && Published(Spread(links, nowMs, NormalizeNodeId(originId).value, e, old(nodes)), nodes, report)
      ensures r.Success? <==>
                && IsSendable(e, nowMs)
                && IsPlain(Trim(originId), 128, "_-.") && ToAsciiLower(Trim(originId)) in old(nodes)
    {
      hide Validate;
      hide IsSendable;
      hide IsPlain;
      hide Trim;
      hide ToAsciiLower;
      ValidExactlyWhen(e, nowMs);
      SegmentExactlyWhen(originId);
      hide NormalizeNodeId;
      hide Arrived;
      hide Spreading;
      hide Unaware;
      hide Published;
      hide MeshDedupe.Sound;
      var invalid := Validate(e, nowMs);
      if invalid.Some? {
        return Failure(invalid.value);
      }
      var origin := NormalizeNodeId(originId);
      if origin.None? || origin.value !in nodes {
        return Failure(UnknownNode);
      }
      ghost var x := Spread(links, nowMs, origin.value, e, nodes);
      assert Started(x);
      var queue, report, order := AcceptAtNode(Arrival(origin.value, None, e), [], NOTHING);
      ghost var level := StartHolds(x, order);
      ghost var c: nat := 0;
      while queue != []
        invariant Spreading(x, Flood(nodes, queue, report), level, c)
        invariant level.Keys <= Unaware(x)
        decreases Unaware(x) - level.Keys, |queue|
      {
        var a := queue[0];
        ghost var f := Flood(nodes, queue, report);
        queue, report, order := AcceptAtNode(a, queue[1..], report);
        level, c := TurnHolds(x, f, level, c, order);
      }
      FinishHolds(x, Flood(nodes, queue, report), level, c);
      PublishedKeepsConnected(x, nodes, report, old(State()));
      r := Success(report);
    }
  }

  lemma PublishedKeepsConnected(x: Spread, nodes: map<string, Node>, r: Report, t: Topology)
    requires Connected(t) && t.links == x.links && t.nodes == x.before && Published(x, nodes, r)
    ensures Connected(t.(nodes := nodes))
  {
    hide Cached;
    hide MeshDedupe.Sound;
    hide Ball;
    hide Knows;
    hide DeliveredRightly;
    hide WantsIt;
  }

  // ----- what publishing promises -----

  ghost predicate IsLinkWalk(x: Spread, walk: seq<string>) {
    && walk != []
    && walk[0] == x.origin
    && (forall i :: 0 <= i < |walk| - 1 ==> walk[i + 1] in Neighbours(x.links, walk[i]))
  }

  ghost predicate Reaches(x: Spread, n: string, walk: seq<string>) {
    IsLinkWalk(x, walk) && walk[|walk| - 1] == n
  }

  /**
   When no node remembers the message, the balls are those of plain link distance: a node is within
   k of the origin exactly when some walk of at most k links leads there.
   */
  lemma ColdBallIsLinkDistance(x: Spread, n: string, k: nat)
    requires Started(x) && (forall m :: m in x.before ==> !Knows(x, x.before[m]))
    ensures n in Ball(x, k) <==> exists walk :: Reaches(x, n, walk) && |walk| <= k + 1
  {
    hide Validate;
    hide MeshDedupe.Sound;
    hide Ball;
    BallIsReachability(x, n, k);
    forall walk | IsLinkWalk(x, walk)
      ensures IsWalk(x, walk)
    {
      LinkWalkIsCold(x, walk);
    }
    if walk :| IsWalk(x, walk) && walk[|walk| - 1] == n && |walk| <= k + 1 {
      assert Reaches(x, n, walk);
    }
  }

  lemma {:induction false} LinkWalkIsCold(x: Spread, walk: seq<string>)
    requires Started(x) && (forall m :: m in x.before ==> !Knows(x, x.before[m])) && IsLinkWalk(x, walk)
    ensures IsWalk(x, walk)
    decreases |walk|
  {
    hide Validate;
    hide MeshDedupe.Sound;
    if |walk| > 1 {
      var prefix := walk[..|walk| - 1];
      LinkWalkIsCold(x, prefix);
      assert walk[|walk| - 1] in Neighbours(x.links, walk[|walk| - 2]);
      forall i | 0 <= i < |walk|
        ensures walk[i] in Unaware(x)
      {
        assert i < |prefix| ==> walk[i] == prefix[i];
      }
    }
  }

  /** The least number of links that leads from the origin to a node. */
  ghost predicate IsLinkDistance(x: Spread, n: string, k: nat) {
    && (exists walk :: Reaches(x, n, walk) && |walk| == k + 1)
    && (forall walk :: Reaches(x, n, walk) ==> |walk| >= k + 1)
  }

  lemma ColdDistanceIsLinkDistance(x: Spread, n: string, k: nat)
    requires Started(x) && (forall m :: m in x.before ==> !Knows(x, x.before[m]))
    ensures AtDistance(x, n, k) <==> IsLinkDistance(x, n, k)
  {
    hide Started;
    hide Ball;
    hide Reaches;
    ColdBallIsLinkDistance(x, n, k);
    if k > 0 {
      ColdBallIsLinkDistance(x, n, k - 1);
    }
    if AtDistance(x, n, k) {
      forall walk | Reaches(x, n, walk)
        ensures |walk| >= k + 1
      {
        ReachingIsNotEmpty(x, n, walk);
      }
    }
  }

  lemma ReachingIsNotEmpty(x: Spread, n: string, walk: seq<string>)
    requires Reaches(x, n, walk)
    ensures |walk| > 0
  {
  }

  /**
   If no node remembers the message, a node gets it exactly when it is subscribed and within the hop limit by
   link distance; it gets it once, and the delivery records the hop limit less that distance.
   */
  lemma ColdPublishDelivers(x: Spread, nodes: map<string, Node>, r: Report, n: string)
    requires Started(x) && Published(x, nodes, r)
    requires forall m :: m in x.before ==> !Knows(x, x.before[m])
    ensures forall k: nat :: WantsIt(x, n) && IsLinkDistance(x, n, k) && k <= x.envelope.hopLimit ==>
              Delivery(n, x.envelope.topic, x.envelope.msgId, x.envelope.hopLimit - k) in r.delivered
    ensures forall i :: 0 <= i < |r.delivered| && r.delivered[i].nodeId == n ==>
              && WantsIt(x, n)
              && exists k: nat :: IsLinkDistance(x, n, k) && k <= x.envelope.hopLimit
                                  && r.delivered[i].hopLimit == x.envelope.hopLimit - k
    ensures forall i, j :: 0 <= i < j < |r.delivered| ==> r.delivered[i].nodeId != r.delivered[j].nodeId
  {
    hide Cached;
    hide Started;
    hide Knows;
    hide Ball;
    hide MeshDedupe.Sound;
    hide WantsIt;
    hide IsLinkDistance;
    hide AtDistance;
    forall k: nat
      ensures AtDistance(x, n, k) <==> IsLinkDistance(x, n, k)
    {
      ColdDistanceIsLinkDistance(x, n, k);
    }
    forall i | 0 <= i < |r.delivered| && r.delivered[i].nodeId == n
      ensures WantsIt(x, n)
      ensures exists k: nat :: IsLinkDistance(x, n, k) && k <= x.envelope.hopLimit
                               && r.delivered[i].hopLimit == x.envelope.hopLimit - k
    {
      assert DeliveredRightly(x, r.delivered[i]);
      var k: nat :| k <= x.envelope.hopLimit && AtDistance(x, n, k) && r.delivered[i] == DeliveryAt(x, n, k);
      assert IsLinkDistance(x, n, k);
    }
  }

  /** Every copy made, and the original, is either what taught a node the message or a counted duplicate. */
  lemma PublishConservesWork(x: Spread, nodes: map<string, Node>, r: Report)
    requires Published(x, nodes, r)
    ensures var taught := set n | n in nodes && Knows(x, nodes[n]) && !Knows(x, x.before[n]);
            1 + r.forwarded == |taught| + r.duplicates && r.expired == 0 && r.unknown == 0
  {
    hide Cached;
    hide MeshDedupe.Sound;
    hide DeliveredRightly;
    hide WantsIt;
    hide Pruned;
    var ball := Ball(x, x.envelope.hopLimit);
    BallIsUnaware(x, x.envelope.hopLimit);
    assert (set n | n in nodes && Knows(x, nodes[n]) && !Knows(x, x.before[n])) == ball;
  }

  lemma {:induction false} BallIsUnaware(x: Spread, k: nat)
    ensures Ball(x, k) <= Unaware(x)
  {
    if k > 0 {
      BallIsUnaware(x, k - 1);
    }
  }

  lemma OriginKnows(x: Spread, nodes: map<string, Node>, r: Report)
    requires Started(x) && Published(x, nodes, r)
    ensures x.origin in nodes && Knows(x, nodes[x.origin])
  {
    hide Cached;
    hide Validate;
    hide MeshDedupe.Sound;
    hide DeliveredRightly;
    hide WantsIt;
    hide AtDistance;
    hide Pruned;
    if !Knows(x, x.before[x.origin]) {
      assert x.origin in Ball(x, 0);
      BallsGrow(x, 0, x.envelope.hopLimit);
    }
  }

  lemma KnowingOriginEmptiesBalls(x: Spread, k: nat)
    requires x.origin in x.before && Knows(x, x.before[x.origin])
    ensures Ball(x, k) == {}
  {
  }

  /** From an origin that already knows the message nothing spreads. */
  lemma NothingSpreads(x: Spread, nodes: map<string, Node>, r: Report)
    requires Published(x, nodes, r) && forall k: nat :: Ball(x, k) == {}
    ensures r == Report([], 0, 1, 0, 0, 0)
    ensures nodes.Keys == x.before.Keys
    ensures forall n :: n in nodes ==> (Knows(x, nodes[n]) <==> Knows(x, x.before[n]))
  {
    hide Cached;
    hide Ball;
    hide Knows;
    hide MeshDedupe.Sound;
    assert r.delivered != [] ==> DeliveredRightly(x, r.delivered[0]);
  }

  /** Publishing the same message from the same node again, at the same time, delivers and forwards nothing. */
  lemma PublishingAgainIsSilent(x: Spread, nodes: map<string, Node>, r: Report, nodes': map<string, Node>, r': Report)
    requires Started(x) && Published(x, nodes, r) && Published(x.(before := nodes), nodes', r')
    ensures r' == Report([], 0, 1, 0, 0, 0)
    ensures forall n :: n in nodes ==> n in nodes' && (Knows(x, nodes'[n]) <==> Knows(x, nodes[n]))
  {
    hide Published;
    hide Started;
    hide Ball;
    hide Pruned;
    var again := x.(before := nodes);
    OriginKnows(x, nodes, r);
    forall k: nat
      ensures Ball(again, k) == {}
    {
      KnowingOriginEmptiesBalls(again, k);
    }
    NothingSpreads(again, nodes', r');
  }

  /** The copies forwarded are bounded by the number of link ends of the whole network. */
  lemma ForwardedIsBounded(x: Spread, nodes: map<string, Node>, r: Report)
    requires Started(x) && Published(x, nodes, r)
    ensures r.forwarded + r.hopLimited <= Degrees(x.links, x.links.Keys)
  {
    hide Cached;
    hide Validate;
    hide MeshDedupe.Sound;
    hide Knows;
    var ball := Ball(x, x.envelope.hopLimit);
    BallInNodes(x, x.envelope.hopLimit);
    DegreesGrow(x.links, ball, x.links.Keys);
    assert ball != {} ==> |ball| >= 1;
  }

  lemma {:induction false} BallInNodes(x: Spread, k: nat)
    requires x.links.Keys == x.before.Keys
    ensures Ball(x, k) <= x.links.Keys
  {
    if k > 0 {
      BallInNodes(x, k - 1);
    }
  }
}
