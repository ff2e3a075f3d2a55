/** Transport failover (clients/core/src/transport.rs:3-11, 84-115 and 136-212). */
module Transport {
  import opened Wrappers
  import opened Sequences

  datatype Kind = CentralWs | MeshRelay | DirectP2p | FallbackWss | UserProxy

  datatype State = Healthy | Degraded | Unhealthy | Disabled

  datatype Health = Health(kind: Kind, state: State)

  const DEFAULT_PRIORITY := [CentralWs, MeshRelay, DirectP2p, FallbackWss, UserProxy]

  /** Each kind once, where it first occurs among those not yet seen. */
  function Deduplicated(priority: seq<Kind>, seen: seq<Kind>): seq<Kind>
    decreases |priority|
  {
    if priority == [] then []
    else if priority[0] in seen then Deduplicated(priority[1..], seen)
    else [priority[0]] + Deduplicated(priority[1..], seen + [priority[0]])
  }

  function Order(priority: seq<Kind>): seq<Kind> {
    var kept := Deduplicated(priority, []);
    if kept == [] then DEFAULT_PRIORITY else kept
  }

  method Normalized(priority: seq<Kind>) returns (order: seq<Kind>)
    ensures order == Order(priority)
  {
    var kept, seen := [], [];
    for i := 0 to |priority|
      invariant kept + Deduplicated(priority[i..], seen) == Deduplicated(priority, [])
    {
      assert priority[i..][1..] == priority[i + 1..];
      if priority[i] !in seen {
        seen := seen + [priority[i]];
        kept := kept + [priority[i]];
      }
    }
    assert kept == Deduplicated(priority, []);
    order := if kept == [] then DEFAULT_PRIORITY else kept;
  }

  /** The first health entry of a kind decides; no entry means not usable. */
  predicate IsUsable(health: seq<Health>, kind: Kind) {
    if health == [] then false
    else if health[0].kind == kind then health[0].state in {Healthy, Degraded}
    else IsUsable(health[1..], kind)
  }

  method Usable(health: seq<Health>, kind: Kind) returns (usable: bool)
    ensures usable == IsUsable(health, kind)
  {
    for i := 0 to |health|
      invariant IsUsable(health[i..], kind) == IsUsable(health, kind)
    {
      if health[i].kind == kind {
        return health[i].state == Healthy || health[i].state == Degraded;
      }
    }
    usable := false;
  }

  function FirstFit(order: seq<Kind>, health: seq<Health>): Option<Kind> {
    if order == [] then None
    else if IsUsable(health, order[0]) then Some(order[0])
    else FirstFit(order[1..], health)
  }

  function Behind(order: seq<Kind>, current: Kind): seq<Kind> {
    if order == [] then []
    else if order[0] == current then order[1..]
    else Behind(order[1..], current)
  }

  method FirstUsable(priority: seq<Kind>, health: seq<Health>) returns (first: Option<Kind>)
    ensures first == FirstFit(Order(priority), health)
  {
    var order := Normalized(priority);
    for i := 0 to |order|
      invariant FirstFit(order[i..], health) == FirstFit(order, health)
    {
      var usable := Usable(health, order[i]);
      if usable {
        return Some(order[i]);
      }
    }
    first := None;
  }

  method NextAfter(priority: seq<Kind>, current: Kind, health: seq<Health>) returns (next: Option<Kind>)
    ensures next == FirstFit(Behind(Order(priority), current), health)
  {
    var order := Normalized(priority);
    var afterCurrent := false;
    for i := 0 to |order|
      invariant !afterCurrent ==> Behind(order[i..], current) == Behind(order, current)
      invariant afterCurrent ==> FirstFit(order[i..], health) == FirstFit(Behind(order, current), health)
    {
      assert order[i..][1..] == order[i + 1..];
      if !afterCurrent {
        afterCurrent := order[i] == current;
        continue;
      }
      var usable := Usable(health, order[i]);
      if usable {
        return Some(order[i]);
      }
    }
    next := None;
  }

  // ----- the order -----

  function FirstIndex(priority: seq<Kind>, kind: Kind): nat {
    if priority == [] || priority[0] == kind then 0 else 1 + FirstIndex(priority[1..], kind)
  }

  lemma {:induction false} DeduplicatedKeepsOrder(priority: seq<Kind>, seen: seq<Kind>)
    ensures var kept := Deduplicated(priority, seen);
            && (forall k :: k in kept <==> k in priority && k !in seen)
            && (forall i, j :: 0 <= i < j < |kept| ==> FirstIndex(priority, kept[i]) < FirstIndex(priority, kept[j]))
    decreases |priority|
  {
    if priority != [] {
      var rest := if priority[0] in seen then Deduplicated(priority[1..], seen)
                  else Deduplicated(priority[1..], seen + [priority[0]]);
      DeduplicatedKeepsOrder(priority[1..], if priority[0] in seen then seen else seen + [priority[0]]);
      forall i | 0 <= i < |rest|
        ensures rest[i] != priority[0] && FirstIndex(priority, rest[i]) == 1 + FirstIndex(priority[1..], rest[i])
      {
        assert rest[i] in rest;
      }
      assert priority[0] !in seen ==> Deduplicated(priority, seen) == [priority[0]] + rest;
    }
  }

  /** The order lists every kind of the policy once, by first occurrence; an empty policy means the default. */
  lemma OrderIsByFirstOccurrence(priority: seq<Kind>)
    ensures var order := Order(priority);
            var source := if priority == [] then DEFAULT_PRIORITY else priority;
            && NoDuplicates(order)
            && (forall k :: k in order <==> k in source)
            && (forall i, j :: 0 <= i < j < |order| ==> FirstIndex(source, order[i]) < FirstIndex(source, order[j]))
  {
    DeduplicatedKeepsOrder(priority, []);
    if priority == [] {
      DefaultIsItsOwnOrder();
    } else {
      assert priority[0] in Deduplicated(priority, []);
    }
  }

  lemma DefaultIsItsOwnOrder()
    ensures NoDuplicates(DEFAULT_PRIORITY)
    ensures forall i :: 0 <= i < 5 ==> FirstIndex(DEFAULT_PRIORITY, DEFAULT_PRIORITY[i]) == i
  {
    forall i | 0 <= i < 5
      ensures FirstIndex(DEFAULT_PRIORITY, DEFAULT_PRIORITY[i]) == i
    {
      IndexOfNoDuplicates(DEFAULT_PRIORITY, i);
    }
  }

  lemma {:induction false} IndexOfNoDuplicates(order: seq<Kind>, i: nat)
    requires NoDuplicates(order) && i < |order|
    ensures FirstIndex(order, order[i]) == i
  {
    if i > 0 {
      IndexOfNoDuplicates(order[1..], i - 1);
    }
  }

  // ----- failing over -----

  function UsableKinds(order: seq<Kind>, health: seq<Health>): seq<Kind> {
    if order == [] then []
    else if IsUsable(health, order[0]) then [order[0]] + UsableKinds(order[1..], health)
    else UsableKinds(order[1..], health)
  }

  lemma {:induction false} UsableElements(order: seq<Kind>, health: seq<Health>)
    ensures forall k :: k in UsableKinds(order, health) <==> k in order && IsUsable(health, k)
  {
    if order != [] {
      UsableElements(order[1..], health);
    }
  }

  lemma {:induction false} FirstFitIsHead(order: seq<Kind>, health: seq<Health>)
    ensures FirstFit(order, health)
         == if UsableKinds(order, health) == [] then None else Some(UsableKinds(order, health)[0])
  {
    hide IsUsable;
    if order != [] {
      FirstFitIsHead(order[1..], health);
    }
  }

  /** Behind the i-th usable kind come exactly the later usable ones. */
  lemma {:induction false} UsableBehind(order: seq<Kind>, health: seq<Health>, i: nat)
    requires NoDuplicates(order) && i < |UsableKinds(order, health)|
    ensures UsableKinds(Behind(order, UsableKinds(order, health)[i]), health) == UsableKinds(order, health)[i + 1..]
  {
    hide IsUsable;
    var all, rest := UsableKinds(order, health), UsableKinds(order[1..], health);
    UsableElements(order[1..], health);
    if IsUsable(health, order[0]) && i == 0 {
      assert all[1..] == rest;
    } else if IsUsable(health, order[0]) {
      assert all[i] == rest[i - 1] && rest[i - 1] in rest;
      UsableBehind(order[1..], health, i - 1);
      assert all[i + 1..] == rest[i..];
    } else {
      assert all[i] in rest;
      UsableBehind(order[1..], health, i);
    }
  }

  /** The kinds tried in turn: the first usable one, then the next after each, until there is none. */
  ghost predicate IsFailover(order: seq<Kind>, health: seq<Health>, tried: seq<Kind>) {
    if tried == [] then FirstFit(order, health) == None
    else
      && FirstFit(order, health) == Some(tried[0])
      && (forall i :: 0 <= i < |tried| - 1 ==> FirstFit(Behind(order, tried[i]), health) == Some(tried[i + 1]))
      && FirstFit(Behind(order, tried[|tried| - 1]), health) == None
  }

  lemma NextOfUsable(order: seq<Kind>, health: seq<Health>, i: nat)
    requires NoDuplicates(order) && i < |UsableKinds(order, health)|
    ensures FirstFit(Behind(order, UsableKinds(order, health)[i]), health)
         == if i + 1 < |UsableKinds(order, health)| then Some(UsableKinds(order, health)[i + 1]) else None
  {
    UsableBehind(order, health, i);
    FirstFitIsHead(Behind(order, UsableKinds(order, health)[i]), health);
  }

  lemma {:induction false} TriedIsUsable(order: seq<Kind>, health: seq<Health>, tried: seq<Kind>, i: nat)
    requires NoDuplicates(order) && IsFailover(order, health, tried) && i < |tried|
    ensures i < |UsableKinds(order, health)| && tried[i] == UsableKinds(order, health)[i]
  {
    hide UsableKinds;
    hide FirstFit;
    hide Behind;
    if i == 0 {
      FirstFitIsHead(order, health);
    } else {
      TriedIsUsable(order, health, tried, i - 1);
      NextOfUsable(order, health, i - 1);
      assert FirstFit(Behind(order, tried[i - 1]), health) == Some(tried[i - 1 + 1]);
    }
  }

  lemma UsableIsFailover(order: seq<Kind>, health: seq<Health>, usable: seq<Kind>)
    requires NoDuplicates(order) && usable == UsableKinds(order, health)
    ensures IsFailover(order, health, usable)
  {
    hide UsableKinds;
    hide FirstFit;
    hide Behind;
    FirstFitIsHead(order, health);
    forall i | 0 <= i < |usable|
      ensures FirstFit(Behind(order, usable[i]), health) == if i + 1 < |usable| then Some(usable[i + 1]) else None
    {
      NextOfUsable(order, health, i);
    }
    if usable != [] {
      NextOfUsable(order, health, |usable| - 1);
    }
  }

  lemma FailoverIsAllUsable(order: seq<Kind>, health: seq<Health>, tried: seq<Kind>)
    requires NoDuplicates(order) && IsFailover(order, health, tried)
    ensures tried == UsableKinds(order, health)
  {
    hide UsableKinds;
    hide FirstFit;
    hide Behind;
    var usable := UsableKinds(order, health);
    FirstFitIsHead(order, health);
    forall i | 0 <= i < |tried|
      ensures i < |usable| && tried[i] == usable[i]
    {
      TriedIsUsable(order, health, tried, i);
    }
    if tried != [] {
      var last := |tried| - 1;
      assert last < |usable| && tried[last] == usable[last];
      NextOfUsable(order, health, last);
    }
  }

  /** Failing over visits exactly the usable kinds of the policy, each once, in priority order, and then ends. */
  lemma FailoverVisitsUsableKinds(priority: seq<Kind>, health: seq<Health>, tried: seq<Kind>)
    ensures IsFailover(Order(priority), health, tried) <==> tried == UsableKinds(Order(priority), health)
  {
    hide UsableKinds;
    hide IsFailover;
    hide Order;
    var order := Order(priority);
    OrderIsByFirstOccurrence(priority);
    UsableIsFailover(order, health, UsableKinds(order, health));
    if IsFailover(order, health, tried) {
      FailoverIsAllUsable(order, health, tried);
    }
  }

  /** A kind is usable exactly when its first health entry says healthy or degraded. */
  lemma {:induction false} UsableExactlyWhen(health: seq<Health>, kind: Kind)
    ensures IsUsable(health, kind) <==>
              exists i :: && 0 <= i < |health| && health[i].kind == kind
                          && health[i].state != Unhealthy && health[i].state != Disabled
                          && forall j :: 0 <= j < i ==> health[j].kind != kind
  {
    if health != [] && health[0].kind != kind {
      UsableExactlyWhen(health[1..], kind);
      if IsUsable(health, kind) {
        var i :| && 0 <= i < |health[1..]| && health[1..][i].kind == kind
                 && health[1..][i].state != Unhealthy && health[1..][i].state != Disabled
                 && forall j :: 0 <= j < i ==> health[1..][j].kind != kind;
        assert health[i + 1] == health[1..][i];
        assert forall j :: 0 < j < i + 1 ==> health[j] == health[1..][j - 1];
      }
      forall i | && 0 <= i < |health| && health[i].kind == kind
                 && health[i].state != Unhealthy && health[i].state != Disabled
                 && forall j :: 0 <= j < i ==> health[j].kind != kind
        ensures IsUsable(health, kind)
      {
        assert health[1..][i - 1] == health[i];
        assert forall j :: 0 <= j < i - 1 ==> health[1..][j] == health[j + 1];
      }
    }
  }

  /** Behind a kind that the policy does not list there is nothing to fail over to. */
  lemma {:induction false} NothingBehindUnlisted(order: seq<Kind>, current: Kind)
    requires current !in order
    ensures Behind(order, current) == []
  {
    if order != [] {
      NothingBehindUnlisted(order[1..], current);
    }
  }

}
